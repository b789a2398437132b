/**
 * The relative-age suffix of formatTimeWithAge (lib/format.ts). The clock
 * time rendered by Intl.DateTimeFormat is a parameter.
 */
module Format {
  import opened Text

  /** `Math.max(0, Math.floor((now - timestamp * 1000) / 1000))`: whole seconds elapsed, `timestamp` in seconds and `now` in milliseconds. */
  function AgeSeconds(timestamp: int, now: int): (r: nat)
    ensures now - timestamp * 1000 < 1000 ==> r == 0
    ensures now - timestamp * 1000 >= 1000 ==> r * 1000 <= now - timestamp * 1000 < r * 1000 + 1000
  {
    var d := (now - timestamp * 1000) / 1000;
    if d < 0 then 0 else d
  }

  /** The age as a count and a unit letter: seconds below a minute, whole minutes below an hour, whole hours beyond. */
  datatype Age = Age(count: nat, unit: char)

  function AgeBucket(s: nat): (r: Age)
    ensures s < 60 ==> r == Age(s, 's')
    ensures 60 <= s < 3600 ==> r.unit == 'm' && 1 <= r.count <= 59 && r.count * 60 <= s < r.count * 60 + 60
    ensures s >= 3600 ==> r.unit == 'h' && r.count >= 1 && r.count * 3600 <= s < r.count * 3600 + 3600
  {
    if s < 60 then Age(s, 's')
    else if s < 3600 then Age(s / 60, 'm')
    else Age(s / 3600, 'h')
  }

  /**
   * "{n}s ago", "{n}m ago" or "{n}h ago": a decimal count without leading
   * zeros that reads back as the bucket's count, its unit letter, then " ago".
   */
  function AgeText(s: nat): (r: string)
    ensures |r| >= 6 && r[|r| - 4..] == " ago" && r[|r| - 5] == AgeBucket(s).unit
    ensures forall i :: 0 <= i < |r| - 5 ==> '0' <= r[i] <= '9'
    ensures DecimalValue(r[..|r| - 5]) == AgeBucket(s).count
    ensures AgeBucket(s).count > 0 ==> r[0] != '0'
  {
    var a := AgeBucket(s);
    var digits := NatToString(a.count);
    var r := digits + [a.unit] + " ago";
    assert r[..|r| - 5] == digits;
    r
  }

  /** formatTimeWithAge: the clock time, then the age in parentheses. */
  function FormatTimeWithAge(time: string, timestamp: int, now: int): (r: string)
    ensures |r| == |time| + |AgeText(AgeSeconds(timestamp, now))| + 3
    ensures r[..|time|] == time
    ensures r[|time|..|time| + 2] == " ("
    ensures r[|r| - 1] == ')'
    ensures r[|time| + 2..|r| - 1] == AgeText(AgeSeconds(timestamp, now))
  {
    time + " (" + AgeText(AgeSeconds(timestamp, now)) + ")"
  }

  /** A timestamp in the future reads as "0s ago". */
  lemma FutureIsZeroSeconds(timestamp: int, now: int)
    requires now <= timestamp * 1000
    ensures AgeText(AgeSeconds(timestamp, now)) == "0s ago"
  {
    assert NatToString(0) == "0";
  }
}
