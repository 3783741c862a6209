/** The idempotency keys of backend/src/reports/execution_service.py:98-127 and
    :548-549. A root key names one occurrence; a retry key extends the key of
    the attempt it replaces. */
module IdempotencyKeys {

  predicate IsDigit(c: char) { '0' <= c <= '9' }

  function Digit(n: nat): (c: char)
    requires n < 10
    ensures IsDigit(c)
  {
    (n + '0' as int) as char
  }

  function Decimal(n: nat): (s: string)
    ensures s != []
    ensures forall i :: 0 <= i < |s| ==> IsDigit(s[i])
  {
    if n < 10 then [Digit(n)] else Decimal(n / 10) + [Digit(n % 10)]
  }

  lemma {:induction false} DecimalInjective(m: nat, n: nat)
    requires Decimal(m) == Decimal(n)
    ensures m == n
    decreases m
  {
    assert Decimal(m)[|Decimal(m)| - 1] == Digit(m % 10);
    assert Decimal(n)[|Decimal(n)| - 1] == Digit(n % 10);
    if m >= 10 && n >= 10 {
      assert Decimal(m)[..|Decimal(m)| - 1] == Decimal(m / 10);
      assert Decimal(n)[..|Decimal(n)| - 1] == Decimal(n / 10);
      DecimalInjective(m / 10, n / 10);
    } else {
      assert m >= 10 ==> |Decimal(m)| >= 2;
      assert n >= 10 ==> |Decimal(n)| >= 2;
    }
  }

  // ---------------------------------------------------------------- retry keys

  function RetryKey(key: string, attempt: nat): string {
    key + "#a" + Decimal(attempt)
  }

  /** The suffix can always be cut off again, whatever the key contains. */
  lemma RetryKeyInjective(key1: string, attempt1: nat, key2: string, attempt2: nat)
    requires RetryKey(key1, attempt1) == RetryKey(key2, attempt2)
    ensures key1 == key2 && attempt1 == attempt2
  {
    SameLength(key1, attempt1, key2, attempt2);
    SameLength(key2, attempt2, key1, attempt1);
    var whole := RetryKey(key1, attempt1);
    assert whole[..|key1|] == key1;
    assert whole[..|key1|] == key2;
    assert whole[|key1| + 2..] == Decimal(attempt1);
    assert whole[|key1| + 2..] == Decimal(attempt2);
    DecimalInjective(attempt1, attempt2);
  }

  lemma SameLength(key1: string, attempt1: nat, key2: string, attempt2: nat)
    requires RetryKey(key1, attempt1) == RetryKey(key2, attempt2)
    ensures |key2| <= |key1|
  {
    assert RetryKey(key2, attempt2)[|key2|] == '#';
    NoMarkBehind(key1, attempt1, |key2|);
  }

  lemma NoMarkBehind(key: string, attempt: nat, at: nat)
    requires at < |RetryKey(key, attempt)|
    ensures RetryKey(key, attempt)[at] == '#' ==> at <= |key|
  {
    if at >= |key| + 2 {
      assert RetryKey(key, attempt)[at] == Decimal(attempt)[at - |key| - 2];
    }
  }

  // ----------------------------------------------------------------- root keys

  predicate IsRootKey(key: string) { '#' !in key }

  /** A key no retry key can ever equal. */
  type RootKey = key: string | IsRootKey(key) witness "root"

  lemma RetryKeyIsNotRoot(key: string, attempt: nat)
    ensures !IsRootKey(RetryKey(key, attempt))
  {
    assert RetryKey(key, attempt)[|key|] == '#';
  }

  predicate IsHex(c: char) { IsDigit(c) || 'a' <= c <= 'f' }

  /** str(uuid.UUID): 36 hexadecimal digits and hyphens. */
  predicate IsUuidText(s: string) {
    |s| == 36 && forall i :: 0 <= i < |s| ==> IsHex(s[i]) || s[i] == '-'
  }

  type UuidText = s: string | IsUuidText(s) witness "00000000-0000-0000-0000-000000000000"

  datatype Moment = Moment(year: nat, month: nat, day: nat, hour: nat, minute: nat, second: nat)

  type UtcMoment = m: Moment |
    && 1000 <= m.year <= 9999 && 1 <= m.month <= 12 && 1 <= m.day <= 31
    && m.hour < 24 && m.minute < 60 && m.second < 60
    witness Moment(2026, 1, 1, 0, 0, 0)

  function TwoDigits(n: nat): string
    requires n < 100
  {
    [Digit(n / 10), Digit(n % 10)]
  }

  /** strftime("%Y%m%dT%H%M"). */
  function MinuteBucket(m: UtcMoment): string {
    TwoDigits(m.year / 100) + TwoDigits(m.year % 100) + TwoDigits(m.month) + TwoDigits(m.day)
    + "T" + TwoDigits(m.hour) + TwoDigits(m.minute)
  }

  function ManualKey(report: UuidText, user: UuidText, moment: UtcMoment): (key: string)
    ensures IsRootKey(key)
  {
    "manual:" + report + ":" + user + ":" + MinuteBucket(moment)
  }

  /** datetime.isoformat() of a UTC instant: digits and punctuation. */
  predicate IsIsoText(s: string) {
    forall i :: 0 <= i < |s| ==> IsDigit(s[i]) || s[i] in "-:T+."
  }

  function ScheduledKey(report: UuidText, scheduledFor: string): (key: string)
    requires IsIsoText(scheduledFor)
    ensures IsRootKey(key)
  {
    "scheduled:" + report + ":" + scheduledFor
  }

  /** One key per report and occurrence. */
  lemma ScheduledKeyInjective(report1: UuidText, scheduled1: string, report2: UuidText, scheduled2: string)
    requires IsIsoText(scheduled1) && IsIsoText(scheduled2)
    ensures ScheduledKey(report1, scheduled1) == ScheduledKey(report2, scheduled2)
       <==> report1 == report2 && scheduled1 == scheduled2
    ensures IsRootKey(ScheduledKey(report1, scheduled1))
  {
    var key1, key2 := ScheduledKey(report1, scheduled1), ScheduledKey(report2, scheduled2);
    if key1 == key2 {
      assert key1[10..46] == report1 && key2[10..46] == report2;
      assert key1[47..] == scheduled1 && key2[47..] == scheduled2;
    }
  }

  /** No occurrence is taken for a click. */
  lemma ManualIsNotScheduled(report1: UuidText, user: UuidText, moment: UtcMoment, report2: UuidText, scheduledFor: string)
    requires IsIsoText(scheduledFor)
    ensures ManualKey(report1, user, moment) != ScheduledKey(report2, scheduledFor)
  {
    assert ManualKey(report1, user, moment)[0] == 'm' && ScheduledKey(report2, scheduledFor)[0] == 's';
  }

  predicate SameMinute(a: UtcMoment, b: UtcMoment) {
    a.(second := 0) == b.(second := 0)
  }

  /** Two clicks share a key exactly when they are the same person running the
      same report in the same minute. */
  lemma ManualKeysMeetPerMinute(report1: UuidText, user1: UuidText, moment1: UtcMoment,
                                report2: UuidText, user2: UuidText, moment2: UtcMoment)
    ensures ManualKey(report1, user1, moment1) == ManualKey(report2, user2, moment2)
       <==> report1 == report2 && user1 == user2 && SameMinute(moment1, moment2)
  {
    var key1, key2 := ManualKey(report1, user1, moment1), ManualKey(report2, user2, moment2);
    if key1 == key2 {
      assert key1[7..43] == report1 && key2[7..43] == report2;
      assert key1[44..80] == user1 && key2[44..80] == user2;
      assert key1[81..] == MinuteBucket(moment1) && key2[81..] == MinuteBucket(moment2);
      BucketInjective(moment1, moment2);
    }
  }

  lemma BucketInjective(m1: UtcMoment, m2: UtcMoment)
    requires MinuteBucket(m1) == MinuteBucket(m2)
    ensures SameMinute(m1, m2)
  {
    var b1, b2 := MinuteBucket(m1), MinuteBucket(m2);
    TwoDigitsInjective(m1.year / 100, m2.year / 100, b1[0..2], b2[0..2]);
    TwoDigitsInjective(m1.year % 100, m2.year % 100, b1[2..4], b2[2..4]);
    TwoDigitsInjective(m1.month, m2.month, b1[4..6], b2[4..6]);
    TwoDigitsInjective(m1.day, m2.day, b1[6..8], b2[6..8]);
    TwoDigitsInjective(m1.hour, m2.hour, b1[9..11], b2[9..11]);
    TwoDigitsInjective(m1.minute, m2.minute, b1[11..13], b2[11..13]);
  }

  lemma TwoDigitsInjective(m: nat, n: nat, s: string, t: string)
    requires m < 100 && n < 100 && s == t
    requires s == TwoDigits(m) && t == TwoDigits(n)
    ensures m == n
  {
    assert s[0] == Digit(m / 10) && s[1] == Digit(m % 10);
    assert t[0] == Digit(n / 10) && t[1] == Digit(n % 10);
  }
}
