/**
  `formatDuration`: the time part of an ISO 8601 duration (section 4.4.3.2 of
  ISO 8601:2004, designators `PT…H…M…S`) read by the unanchored regex
  `PT(\d+H)?(\d+M)?(\d+S)?` and printed as `"{h}h {m}m {s}s"`.
 */
module Duration {
  import opened Text

  predicate PTAt(s: string, j: nat) {
    j + 2 <= |s| && s[j] == 'P' && s[j + 1] == 'T'
  }

  predicate ContainsPT(s: string) {
    exists j :: 0 <= j < |s| && PTAt(s, j)
  }

  /** The leftmost `PT` from `from` on: where the unanchored regex starts its match. */
  function FindPT(s: string, from: nat): (r: Option<nat>)
    requires from <= |s|
    ensures r.Some? ==> from <= r.value && PTAt(s, r.value)
    ensures r.Some? ==> forall j :: from <= j < r.value ==> !PTAt(s, j)
    ensures r.None? ==> forall j :: from <= j ==> !PTAt(s, j)
    decreases |s| - from
  {
    if from + 2 > |s| then None
    else if PTAt(s, from) then Some(from)
    else FindPT(s, from + 1)
  }

  /** Length of the run of ASCII digits (`\d`) at the start of `t`. */
  function DigitRun(t: string): (n: nat)
    ensures n <= |t|
    ensures forall i :: 0 <= i < n ==> IsDigit(t[i])
    ensures n == |t| || !IsDigit(t[n])
  {
    if t != [] && IsDigit(t[0]) then 1 + DigitRun(t[1..]) else 0
  }

  /** What one optional group read: its value, if it matched, and the text after it. */
  datatype Parsed = Parsed(value: Option<nat>, rest: string)

  /** One optional group `(\d+X)?` at the start of `t`, `X` the designator: when it
      matches, it consumes a non-empty digit string and the designator, and its value
      is that of the digits. */
  function Group(t: string, designator: char): (g: Parsed)
    requires !IsDigit(designator)
    ensures g.value.None? ==> g.rest == t
    ensures g.value.Some? ==>
              var n := |t| - |g.rest| - 1;
              && 0 < n < |t| && AllDigits(t[..n]) && t[n] == designator
              && g.rest == t[n + 1..] && g.value.value == DigitsValue(t[..n])
  {
    var n := DigitRun(t);
    if n > 0 && n < |t| && t[n] == designator then
      Parsed(Some(DigitsValue(t[..n])), t[n + 1..])
    else
      Parsed(None, t)
  }

  /** No group with this designator can match at the start of `t`. */
  predicate NoGroup(t: string, designator: char) {
    forall k :: 0 < k < |t| && AllDigits(t[..k]) ==> t[k] != designator
  }

  /** The group is absent only when no run of digits at the start is followed by the
      designator. */
  lemma GroupAbsent(t: string, designator: char)
    requires !IsDigit(designator)
    requires Group(t, designator).value.None?
    ensures NoGroup(t, designator)
  {
    var n := DigitRun(t);
    forall k | 0 < k < |t| && AllDigits(t[..k]) ensures t[k] != designator {
      assert t[..k][k - 1] == t[k - 1];
      if k < n {
        assert IsDigit(t[k]);
      }
    }
  }

  /** The three optional groups `(\d+H)?(\d+M)?(\d+S)?` read one after the other,
      absent ones as 0. */
  function ReadGroups(t: string): (nat, nat, nat) {
    var h := Group(t, 'H');
    var m := Group(h.rest, 'M');
    var sec := Group(m.rest, 'S');
    (h.value.GetOr(0), m.value.GetOr(0), sec.value.GetOr(0))
  }

  /** The output format. */
  function Render(hours: nat, minutes: nat, seconds: nat): string {
    NatToString(hours) + "h " + NatToString(minutes) + "m " + NatToString(seconds) + "s"
  }

  /** The values the regex captures: `None` when it does not match (no `PT` anywhere),
      otherwise the three groups after the first `PT`. */
  function MatchGroups(iso: string): Option<(nat, nat, nat)> {
    match FindPT(iso, 0)
    case None => None
    case Some(i) => Some(ReadGroups(iso[i + 2..]))
  }

  /** `formatDuration(isoDuration)`: the input itself when the regex does not match,
      otherwise the rendering of what it captured. */
  function FormatDuration(iso: string): string {
    match MatchGroups(iso)
    case None => iso
    case Some(c) => Render(c.0, c.1, c.2)
  }

  lemma RenderHasNoP(hours: nat, minutes: nat, seconds: nat)
    ensures 'P' !in Render(hours, minutes, seconds)
  {
    var a, b, c := NatToString(hours), NatToString(minutes), NatToString(seconds);
    assert 'P' !in a && 'P' !in b && 'P' !in c;
    assert Render(hours, minutes, seconds) == a + "h " + b + "m " + c + "s";
  }

  /** The regex matches exactly when `PT` occurs. */
  lemma MatchGroupsIff(iso: string)
    ensures MatchGroups(iso).Some? <==> ContainsPT(iso)
  {
    if ContainsPT(iso) {
      var j :| 0 <= j < |iso| && PTAt(iso, j);
    }
  }

  /** It then reads the groups after the first `PT`. */
  lemma MatchAtFirstPT(iso: string, i: nat)
    requires PTAt(iso, i)
    requires forall j :: 0 <= j < i ==> !PTAt(iso, j)
    ensures MatchGroups(iso) == Some(ReadGroups(iso[i + 2..]))
  {
    var f := FindPT(iso, 0);
    assert f == Some(i);
  }

  /** Once the regex matched, the output is the rendering of its groups. */
  lemma FormatOfMatch(iso: string, c: (nat, nat, nat))
    requires MatchGroups(iso) == Some(c)
    ensures FormatDuration(iso) == Render(c.0, c.1, c.2)
  {
  }

  /** The input comes back unchanged exactly when it holds no `PT`. */
  lemma FormatUnchangedIff(iso: string)
    ensures FormatDuration(iso) == iso <==> !ContainsPT(iso)
  {
    MatchGroupsIff(iso);
    if ContainsPT(iso) {
      var c := MatchGroups(iso).value;
      FormatOfMatch(iso, c);
      RenderHasNoP(c.0, c.1, c.2);
      var j :| 0 <= j < |iso| && PTAt(iso, j);
      assert iso[j] in iso;
    }
  }

  /** A designator group as it may appear in a duration: absent, or a non-empty
      digit string (leading zeros allowed) followed by the designator. */
  predicate IsDigitGroup(o: Option<string>) {
    o.Some? ==> |o.value| > 0 && AllDigits(o.value)
  }

  function Part(o: Option<string>, designator: char): string {
    match o
    case None => ""
    case Some(w) => w + [designator]
  }

  function GroupValue(o: Option<string>): nat
    requires IsDigitGroup(o)
  {
    match o
    case None => 0
    case Some(w) => DigitsValue(w)
  }

  /** `PT[nH][nM][nS]`. */
  function IsoDuration(h: Option<string>, m: Option<string>, s: Option<string>): string {
    "PT" + (Part(h, 'H') + (Part(m, 'M') + Part(s, 'S')))
  }

  /** A group for another designator blocks this one. */
  lemma NoGroupOfPart(o: Option<string>, other: char, rest: string, designator: char)
    requires IsDigitGroup(o) && !IsDigit(other) && !IsDigit(designator) && other != designator
    requires o.None? ==> NoGroup(rest, designator)
    ensures NoGroup(Part(o, other) + rest, designator)
  {
    if o.Some? {
      var w := o.value;
      var t := Part(o, other) + rest;
      assert t[|w|] == other;
      forall k | 0 < k < |t| && AllDigits(t[..k]) ensures t[k] != designator {
        if k < |w| {
          assert t[k] == w[k];
        }
      }
    } else {
      assert Part(o, other) + rest == rest;
    }
  }

  /** The run of digits of `w c rest` is `w` when `c` is not a digit. */
  lemma DigitRunOfPart(w: string, c: char, rest: string)
    requires AllDigits(w) && !IsDigit(c)
    ensures DigitRun(w + [c] + rest) == |w|
  {
    var t := w + [c] + rest;
    assert t[|w|] == c;
  }

  /** The group parser reads exactly the text of a group, or nothing when it is absent. */
  lemma GroupOfPart(o: Option<string>, designator: char, rest: string)
    requires !IsDigit(designator) && IsDigitGroup(o)
    requires o.None? ==> NoGroup(rest, designator)
    ensures Group(Part(o, designator) + rest, designator)
            == Parsed(if o.Some? then Some(GroupValue(o)) else None, rest)
  {
    var t := Part(o, designator) + rest;
    if o.None? {
      assert t == rest;
      var n := DigitRun(t);
      if 0 < n < |t| {
        assert AllDigits(t[..n]);
      }
    } else {
      var w := o.value;
      DigitRunOfPart(w, designator, rest);
      assert t[..|w|] == w;
      assert t[|w| + 1..] == rest;
    }
  }

  /** The groups of `PT[nH][nM][nS]` read their own digits. */
  lemma ReadGroupsOfComponents(h: Option<string>, m: Option<string>, s: Option<string>)
    requires IsDigitGroup(h) && IsDigitGroup(m) && IsDigitGroup(s)
    ensures ReadGroups(Part(h, 'H') + (Part(m, 'M') + Part(s, 'S')))
            == (GroupValue(h), GroupValue(m), GroupValue(s))
  {
    assert NoGroup("", 'H') && NoGroup("", 'M');
    NoGroupOfPart(s, 'S', "", 'H');
    NoGroupOfPart(s, 'S', "", 'M');
    assert Part(s, 'S') + "" == Part(s, 'S');
    NoGroupOfPart(m, 'M', Part(s, 'S'), 'H');
    GroupOfPart(h, 'H', Part(m, 'M') + Part(s, 'S'));
    GroupOfPart(m, 'M', Part(s, 'S'));
    GroupOfPart(s, 'S', "");
  }

  /** A well-shaped duration matches at its start, and the groups read its components. */
  lemma MatchOfComponents(h: Option<string>, m: Option<string>, s: Option<string>)
    requires IsDigitGroup(h) && IsDigitGroup(m) && IsDigitGroup(s)
    ensures MatchGroups(IsoDuration(h, m, s)) == Some((GroupValue(h), GroupValue(m), GroupValue(s)))
  {
    var iso := IsoDuration(h, m, s);
    assert PTAt(iso, 0);
    assert iso[2..] == Part(h, 'H') + (Part(m, 'M') + Part(s, 'S'));
    ReadGroupsOfComponents(h, m, s);
  }

  /** Reading a well-shaped duration gives its components, absent ones as 0. */
  lemma FormatOfComponents(h: Option<string>, m: Option<string>, s: Option<string>)
    requires IsDigitGroup(h) && IsDigitGroup(m) && IsDigitGroup(s)
    ensures FormatDuration(IsoDuration(h, m, s)) == Render(GroupValue(h), GroupValue(m), GroupValue(s))
  {
    MatchOfComponents(h, m, s);
    FormatOfMatch(IsoDuration(h, m, s), (GroupValue(h), GroupValue(m), GroupValue(s)));
  }

  /** Printing naturals as a duration and formatting it gives the naturals back. */
  lemma FormatOfNaturals(hours: nat, minutes: nat, seconds: nat)
    ensures FormatDuration(IsoDuration(Some(NatToString(hours)), Some(NatToString(minutes)),
                                       Some(NatToString(seconds))))
            == Render(hours, minutes, seconds)
  {
    DigitsValueOfNatToString(hours);
    DigitsValueOfNatToString(minutes);
    DigitsValueOfNatToString(seconds);
    FormatOfComponents(Some(NatToString(hours)), Some(NatToString(minutes)), Some(NatToString(seconds)));
  }

  lemma MatchFull()
    ensures MatchGroups("PT1H2M3S") == Some((1, 2, 3))
  {
    assert GroupValue(Some("1")) == 1 && GroupValue(Some("2")) == 2 && GroupValue(Some("3")) == 3;
    assert IsoDuration(Some("1"), Some("2"), Some("3")) == "PT1H2M3S";
    MatchOfComponents(Some("1"), Some("2"), Some("3"));
  }

  /** `PT1H2M3S` reads as `1h 2m 3s`. */
  lemma ExampleFull()
    ensures FormatDuration("PT1H2M3S") == "1h 2m 3s"
  {
    assert Render(1, 2, 3) == "1h 2m 3s";
    MatchFull();
    FormatOfMatch("PT1H2M3S", (1, 2, 3));
  }

  lemma MatchSeconds()
    ensures MatchGroups("PT45S") == Some((0, 0, 45))
  {
    DigitsValueSnoc("4", '5');
    assert "4" + ['5'] == "45";
    assert DigitsValue("4") == 4;
    assert GroupValue(Some("45")) == 45;
    assert IsoDuration(None, None, Some("45")) == "PT45S";
    MatchOfComponents(None, None, Some("45"));
  }

  /** `PT45S` reads as `0h 0m 45s`. */
  lemma ExampleSeconds()
    ensures FormatDuration("PT45S") == "0h 0m 45s"
  {
    assert NatToString(45) == "45";
    assert Render(0, 0, 45) == "0h 0m 45s";
    MatchSeconds();
    FormatOfMatch("PT45S", (0, 0, 45));
  }

  lemma MatchMinutes()
    ensures MatchGroups("PT05M") == Some((0, 5, 0))
  {
    DigitsValueSnoc("0", '5');
    assert "0" + ['5'] == "05";
    assert DigitsValue("0") == 0;
    assert GroupValue(Some("05")) == 5;
    assert IsoDuration(None, Some("05"), None) == "PT05M";
    MatchOfComponents(None, Some("05"), None);
  }

  /** `PT05M` reads as `0h 5m 0s`: the leading zero is dropped. */
  lemma ExampleMinutes()
    ensures FormatDuration("PT05M") == "0h 5m 0s"
  {
    assert Render(0, 5, 0) == "0h 5m 0s";
    MatchMinutes();
    FormatOfMatch("PT05M", (0, 5, 0));
  }
}
