/** The text code of the checklist script: versions, pins and block lists. */
module ChecklistVersions {
  import opened Text

  type Triple = (nat, nat, nat)

  /** A run of digits followed by a dot: the value and what comes after the dot. */
  function NumberDot(s: string): Option<(nat, string)> {
    var n := Span(Digits, s);
    if n == 0 || n == |s| || s[n] != '.' then None else Some((ParseDecimal(s[..n]), s[n + 1..]))
  }

  /** `parse_version`: three dotted numbers at the start of v, or (0, 0, 0). */
  function ParseVersion(v: string): Triple {
    var major := NumberDot(v);
    if major.None? then (0, 0, 0)
    else
      var minor := NumberDot(major.value.1);
      if minor.None? then (0, 0, 0)
      else
        var rest := minor.value.1;
        var n := Span(Digits, rest);
        if n == 0 then (0, 0, 0) else (major.value.0, minor.value.0, ParseDecimal(rest[..n]))
  }

  predicate IsNumber(s: string) {
    s != "" && AllIn(Digits, s)
  }

  lemma NumberDotReads(a: string, rest: string)
    requires AllIn(Digits, a)
    ensures NumberDot(a + "." + rest) == if a == "" then None else Some((ParseDecimal(a), rest))
  {
    var s := a + ("." + rest);
    assert a + "." + rest == s;
    SpanExact(Digits, a, "." + rest);
    assert s[..|a|] == a && s[|a| + 1..] == rest;
  }

  lemma Reassociate(a: string, b: string, c: string, d: string)
    ensures a + "." + (b + "." + (c + d)) == a + "." + b + "." + c + d
  {
  }

  /**
   * Three dotted runs of digits are read as their values, whatever follows
   * that is not a digit; if one of them is empty the text is (0, 0, 0).
   */
  lemma VersionReads(a: string, b: string, c: string, suffix: string)
    requires AllIn(Digits, a) && AllIn(Digits, b) && AllIn(Digits, c) && Ends(Digits, suffix)
    ensures ParseVersion(a + "." + b + "." + c + suffix)
         == if a == "" || b == "" || c == "" then (0, 0, 0) else (ParseDecimal(a), ParseDecimal(b), ParseDecimal(c))
  {
    hide NumberDot, ParseDecimal;
    var tail := c + suffix;
    Reassociate(a, b, c, suffix);
    NumberDotReads(a, b + "." + tail);
    NumberDotReads(b, tail);
    SpanExact(Digits, c, suffix);
    assert tail[..|c|] == c;
    assert ParseVersion(a + "." + (b + "." + tail))
        == if a == "" || b == "" || c == "" then (0, 0, 0) else (ParseDecimal(a), ParseDecimal(b), ParseDecimal(c));
  }

  function Print(t: Triple): string {
    Decimal(t.0) + "." + Decimal(t.1) + "." + Decimal(t.2)
  }

  /** Printing a version and parsing it gives the same triple. */
  lemma VersionRoundTrip(t: Triple, suffix: string)
    requires Ends(Digits, suffix)
    ensures ParseVersion(Print(t) + suffix) == t
  {
    hide ParseVersion, Decimal, ParseDecimal;
    VersionReads(Decimal(t.0), Decimal(t.1), Decimal(t.2), suffix);
    DecimalRoundTrip(t.0);
    DecimalRoundTrip(t.1);
    DecimalRoundTrip(t.2);
  }

  predicate Shape(v: string, a: string, b: string, c: string, suffix: string) {
    IsNumber(a) && IsNumber(b) && IsNumber(c) && Ends(Digits, suffix) && v == a + "." + b + "." + c + suffix
  }

  lemma NumberDotSplits(s: string) returns (a: string)
    requires NumberDot(s).Some?
    ensures IsNumber(a) && s == a + "." + NumberDot(s).value.1
  {
    a := s[..Span(Digits, s)];
  }

  /** Every text that is not read as (0, 0, 0) starts with three dotted numbers. */
  lemma NoVersion(v: string)
    ensures ParseVersion(v) != (0, 0, 0) ==> exists a, b, c, suffix :: Shape(v, a, b, c, suffix)
  {
    hide NumberDot, ParseDecimal;
    if ParseVersion(v) != (0, 0, 0) {
      var a := NumberDotSplits(v);
      var rest := NumberDot(v).value.1;
      var b := NumberDotSplits(rest);
      var last := NumberDot(rest).value.1;
      var k := Span(Digits, last);
      var c, suffix := last[..k], last[k..];
      assert last == c + suffix;
      assert v == a + "." + b + "." + c + suffix;
      assert Shape(v, a, b, c, suffix);
    }
  }
}

/** The pin and floor checks, beside the ordering of PEP 440, "Final releases". */
module ChecklistPins {
  import opened Text
  import opened ChecklistVersions

  // ---- two orders ----

  function Head(r: seq<nat>): nat {
    if r == [] then 0 else r[0]
  }

  function Tail(r: seq<nat>): seq<nat> {
    if r == [] then [] else r[1..]
  }

  /** PEP 440: the shorter release is padded with zeros, then components are compared in turn. */
  predicate Less(a: seq<nat>, b: seq<nat>)
    decreases |a| + |b|
  {
    (a != [] || b != []) && (Head(a) < Head(b) || (Head(a) == Head(b) && Less(Tail(a), Tail(b))))
  }

  /** Python's `a < b` on tuples. */
  predicate TupleLess(a: seq<nat>, b: seq<nat>) {
    if a == [] then b != []
    else if b == [] then false
    else a[0] < b[0] || (a[0] == b[0] && TupleLess(a[1..], b[1..]))
  }

  predicate Zeros(r: seq<nat>) {
    forall i :: 0 <= i < |r| ==> r[i] == 0
  }

  function Components(t: Triple): seq<nat> {
    [t.0, t.1, t.2]
  }

  lemma {:induction false} BelowZeros(a: seq<nat>, r: seq<nat>)
    requires Zeros(r)
    ensures !Less(a, r)
    decreases |a| + |r|
  {
    if a != [] || r != [] {
      BelowZeros(Tail(a), Tail(r));
    }
  }

  lemma {:induction false} ZerosBelow(r: seq<nat>)
    ensures Less([], r) <==> !Zeros(r)
  {
    if r != [] {
      ZerosBelow(r[1..]);
      assert Zeros(r) <==> r[0] == 0 && Zeros(r[1..]) by {
        assert r == [r[0]] + r[1..];
      }
    } else {
      assert !Less([], []);
    }
  }

  /** The first three components, as `parse_version` returns them. */
  function Truncated(r: seq<nat>): Triple {
    (Head(r), Head(Tail(r)), Head(Tail(Tail(r))))
  }

  /** What `parse_version` cannot see. */
  function Rest(r: seq<nat>): seq<nat> {
    Tail(Tail(Tail(r)))
  }

  /** A triple is below a release exactly when it is below its first three
      components as a tuple, or equal to them and something nonzero follows. */
  lemma TripleOrder(t: Triple, r: seq<nat>)
    ensures Less(Components(t), r) <==>
      TupleLess(Components(t), Components(Truncated(r))) || (t == Truncated(r) && !Zeros(Rest(r)))
  {
    var r1, r2 := Tail(r), Tail(Tail(r));
    var c1, c2 := [t.1, t.2], [t.2];
    assert Components(t)[1..] == c1 && c1[1..] == c2 && c2[1..] == [];
    assert Less(Components(t), r) <==> t.0 < Head(r) || (t.0 == Head(r) && Less(c1, r1));
    assert Less(c1, r1) <==> t.1 < Head(r1) || (t.1 == Head(r1) && Less(c2, r2));
    assert Less(c2, r2) <==> t.2 < Head(r2) || (t.2 == Head(r2) && Less([], Tail(r2)));
    ZerosBelow(Tail(r2));
    TripleTuple(t, Truncated(r));
  }

  lemma TripleTuple(t: Triple, u: Triple)
    ensures TupleLess(Components(t), Components(u)) <==>
      t.0 < u.0 || (t.0 == u.0 && (t.1 < u.1 || (t.1 == u.1 && t.2 < u.2)))
  {
    var c1, c2 := [t.1, t.2], [t.2];
    var d1, d2 := [u.1, u.2], [u.2];
    assert Components(t)[1..] == c1 && c1[1..] == c2 && c2[1..] == [];
    assert Components(u)[1..] == d1 && d1[1..] == d2 && d2[1..] == [];
    assert TupleLess(c2, d2) <==> t.2 < u.2 || (t.2 == u.2 && TupleLess([], []));
    assert TupleLess(c1, d1) <==> t.1 < u.1 || (t.1 == u.1 && TupleLess(c2, d2));
    assert TupleLess(Components(t), Components(u)) <==> t.0 < u.0 || (t.0 == u.0 && TupleLess(c1, d1));
  }

  // ---- padding ----

  function Count(s: string, c: char): nat {
    if s == "" then 0 else (if s[0] == c then 1 else 0) + Count(s[1..], c)
  }

  /** `s * n`; nothing for a negative n. */
  function Times(s: string, n: int): string
    decreases if n < 0 then 0 else n
  {
    if n <= 0 then "" else s + Times(s, n - 1)
  }

  /** `s + ".0" * (2 - s.count("."))` */
  function Padded(s: string): string {
    s + Times(".0", 2 - Count(s, '.'))
  }

  predicate AllRuns(parts: seq<string>) {
    forall i :: 0 <= i < |parts| ==> AllIn(Digits, parts[i])
  }

  /** `s.split(".")`, for digits and dots. */
  function Split(s: string): (parts: seq<string>)
    requires AllIn(Dotted, s)
    ensures parts != [] && AllRuns(parts)
    decreases |s|
  {
    var n := Span(Digits, s);
    if n == |s| then
      assert s[..n] == s;
      [s]
    else [s[..n]] + Split(s[n + 1..])
  }

  /** The text is its parts joined by dots again. */
  lemma {:induction false} SplitJoins(s: string)
    requires AllIn(Dotted, s)
    ensures Join(".", Split(s)) == s
    decreases |s|
  {
    var n := Span(Digits, s);
    if n < |s| {
      SplitJoins(s[n + 1..]);
      assert s == s[..n] + "." + s[n + 1..];
    }
  }

  function Values(parts: seq<string>): seq<nat>
    requires AllRuns(parts)
  {
    seq(|parts|, i requires 0 <= i < |parts| => ParseDecimal(parts[i]))
  }

  /** None of the first three parts is empty. */
  predicate Legible(parts: seq<string>) {
    forall i :: 0 <= i < |parts| && i < 3 ==> parts[i] != ""
  }

  /** The release that the script takes a bound for: a bound such as `1.` counts as 0. */
  function Release(s: string): seq<nat>
    requires AllIn(Dotted, s)
  {
    if Legible(Split(s)) then Values(Split(s)) else []
  }

  lemma {:induction false} CountSplit(a: string, b: string, c: char)
    ensures Count(a + b, c) == Count(a, c) + Count(b, c)
  {
    if a == "" {
      assert a + b == b;
    } else {
      CountSplit(a[1..], b, c);
      assert (a + b)[1..] == a[1..] + b;
    }
  }

  lemma {:induction false} NoDots(a: string)
    requires AllIn(Digits, a)
    ensures Count(a, '.') == 0
  {
    if a != "" {
      NoDots(a[1..]);
    }
  }

  lemma {:induction false} DotsInJoin(parts: seq<string>)
    requires parts != [] && AllRuns(parts)
    ensures Count(Join(".", parts), '.') == |parts| - 1
  {
    NoDots(parts[0]);
    if |parts| > 1 {
      var rest := Join(".", parts[1..]);
      DotsInJoin(parts[1..]);
      CountSplit(parts[0] + ".", rest, '.');
      CountSplit(parts[0], ".", '.');
      assert Count(".", '.') == 1;
    }
  }

  /** Padding any bound with zeros and parsing it gives the first three components of its release. */
  lemma PaddedReads(s: string)
    requires AllIn(Dotted, s)
    ensures ParseVersion(Padded(s)) == Truncated(Release(s))
  {
    SplitJoins(s);
    PartsRead(Split(s));
  }

  lemma PartsRead(parts: seq<string>)
    requires parts != [] && AllRuns(parts)
    ensures ParseVersion(Padded(Join(".", parts))) == Truncated(if Legible(parts) then Values(parts) else [])
  {
    hide ParseVersion, ParseDecimal, Count;
    DotsInJoin(parts);
    var text, a := Join(".", parts), parts[0];
    assert ParseDecimal("0") == 0 by { ZeroIsZero(); }
    assert Times(".0", 0) == "";
    assert Times(".0", 1) == ".0";
    if |parts| == 1 {
      assert Times(".0", 2) == ".0" + ".0";
      assert Padded(text) == a + "." + "0" + "." + "0" + "";
      VersionReads(a, "0", "0", "");
    } else if |parts| == 2 {
      assert Padded(text) == a + "." + parts[1] + "." + "0" + "";
      VersionReads(a, parts[1], "0", "");
    } else {
      assert Padded(text) == text;
      var suffix := if |parts| == 3 then "" else "." + Join(".", parts[3..]);
      JoinThree(parts);
      assert text == a + "." + parts[1] + "." + parts[2] + suffix;
      VersionReads(a, parts[1], parts[2], suffix);
    }
  }

  lemma ZeroIsZero()
    ensures ParseDecimal("0") == 0
  {
    assert ParseDecimal("0"[..0]) == 0;
  }

  lemma JoinThree(parts: seq<string>)
    requires |parts| >= 3
    ensures Join(".", parts) == parts[0] + "." + parts[1] + "." + parts[2]
      + (if |parts| == 3 then "" else "." + Join(".", parts[3..]))
  {
    var one, two := parts[1..], parts[2..];
    var suffix := if |parts| == 3 then "" else "." + Join(".", parts[3..]);
    assert one[1..] == two && two[1..] == parts[3..];
    assert Join(".", parts) == parts[0] + "." + Join(".", one);
    assert Join(".", one) == parts[1] + "." + Join(".", two);
    assert Join(".", two) == parts[2] + suffix;
    hide Join;
    Reassociate(parts[0], parts[1], parts[2], suffix);
  }

  // ---- the pin, as text ----

  datatype Finding = NoRange | Fits | Stale | Crash

  /** The text after at least one character of class k: that run, and the rest. */
  function Take(k: Class, s: string): (string, string) {
    (s[..Span(k, s)], s[Span(k, s)..])
  }

  function SkipBlanks(s: string): string {
    Take(Blanks, s).1
  }

  predicate IsBound(s: string) {
    s != "" && AllIn(Dotted, s)
  }

  /** `>=\s*([\d.]+)\s*,\s*<\s*([\d.]+)` at the start of s: the two bounds. */
  function MatchPin(s: string): (r: Option<(string, string)>)
    ensures r.Some? ==> IsBound(r.value.0) && IsBound(r.value.1)
  {
    if !(">=" <= s) then None
    else
      var (floor, rest) := Take(Dotted, SkipBlanks(s[2..]));
      var comma := SkipBlanks(rest);
      if floor == "" || !("," <= comma) then None
      else
        var below := SkipBlanks(comma[1..]);
        if !("<" <= below) then None
        else
          var ceiling := Take(Dotted, SkipBlanks(below[1..])).0;
          if ceiling == "" then None else Some((floor, ceiling))
  }

  /** `re.search`: the leftmost match. */
  function FindPin(s: string): (r: Option<(string, string)>)
    ensures r.Some? ==> IsBound(r.value.0) && IsBound(r.value.1)
  {
    if MatchPin(s).Some? then MatchPin(s)
    else if s == "" then None
    else FindPin(s[1..])
  }

  /** `int(ceiling.split(".")[0])`; an empty first part raises. */
  function CheckBounds(floor: string, ceiling: string, version: string): Finding {
    var first := Take(Digits, ceiling).0;
    if first == "" then Crash
    else
      var actual := ParseVersion(version);
      var low := ParseVersion(Padded(floor));
      if TupleLess(Components(actual), Components(low)) || actual.0 >= ParseDecimal(first) then Stale else Fits
  }

  /** The pin check of `check_meta_extras`. */
  function CheckPin(spec: string, version: string): Finding {
    match FindPin(spec)
    case None => NoRange
    case Some((floor, ceiling)) => CheckBounds(floor, ceiling, version)
  }

  lemma TakeExact(k: Class, run: string, rest: string)
    requires AllIn(k, run) && Ends(k, rest)
    ensures Take(k, run + rest) == (run, rest)
  {
    SpanExact(k, run, rest);
    assert (run + rest)[..|run|] == run && (run + rest)[|run|..] == rest;
  }

  function PinText(floor: string, ceiling: string, b1: string, b2: string, b3: string, b4: string,
                   after: string): string {
    ">=" + (b1 + (floor + (b2 + ("," + (b3 + ("<" + (b4 + (ceiling + after))))))))
  }

  /** Both bounds are found, whatever blanks stand between the parts. */
  lemma PinMatches(floor: string, ceiling: string, b1: string, b2: string, b3: string, b4: string, after: string)
    requires IsBound(floor) && IsBound(ceiling) && Ends(Dotted, after)
    requires AllIn(Blanks, b1) && AllIn(Blanks, b2) && AllIn(Blanks, b3) && AllIn(Blanks, b4)
    ensures MatchPin(PinText(floor, ceiling, b1, b2, b3, b4, after)) == Some((floor, ceiling))
  {
    hide Take;
    var t8 := ceiling + after;
    var t7 := b4 + t8;
    var t5 := b3 + ("<" + t7);
    var t4 := b2 + ("," + t5);
    var t2 := floor + t4;
    TakeExact(Blanks, b1, t2);
    TakeExact(Dotted, floor, t4);
    TakeExact(Blanks, b2, "," + t5);
    TakeExact(Blanks, b3, "<" + t7);
    TakeExact(Blanks, b4, t8);
    TakeExact(Dotted, ceiling, after);
    var s := PinText(floor, ceiling, b1, b2, b3, b4, after);
    assert s == ">=" + (b1 + t2);
    assert s[2..] == b1 + t2;
    assert ("," + t5)[1..] == t5 && ("<" + t7)[1..] == t7;
  }

  /** The text has the shape of a range with these bounds at its start. */
  ghost predicate StartsWithPin(s: string, floor: string, ceiling: string) {
    exists b1, b2, b3, b4, after ::
      && AllIn(Blanks, b1) && AllIn(Blanks, b2) && AllIn(Blanks, b3) && AllIn(Blanks, b4)
      && IsBound(floor) && IsBound(ceiling) && Ends(Dotted, after)
      && s == PinText(floor, ceiling, b1, b2, b3, b4, after)
  }

  lemma TakeSplits(k: Class, s: string)
    ensures var (run, rest) := Take(k, s);
      s == run + rest && AllIn(k, run) && Ends(k, rest)
  {
  }

  /** A match is a range: it has a floor, a comma and a ceiling. */
  lemma MatchIsPin(s: string)
    requires MatchPin(s).Some?
    ensures var (floor, ceiling) := MatchPin(s).value; StartsWithPin(s, floor, ceiling)
  {
    hide Take;
    var (floor, ceiling) := MatchPin(s).value;
    TakeSplits(Blanks, s[2..]);
    var (b1, t1) := Take(Blanks, s[2..]);
    TakeSplits(Dotted, t1);
    var t2 := Take(Dotted, t1).1;
    TakeSplits(Blanks, t2);
    var (b2, comma) := Take(Blanks, t2);
    TakeSplits(Blanks, comma[1..]);
    var (b3, below) := Take(Blanks, comma[1..]);
    TakeSplits(Blanks, below[1..]);
    var (b4, t3) := Take(Blanks, below[1..]);
    TakeSplits(Dotted, t3);
    var after := Take(Dotted, t3).1;
    assert comma == "," + comma[1..] && below == "<" + below[1..];
    assert s == ">=" + s[2..];
    assert s == PinText(floor, ceiling, b1, b2, b3, b4, after);
  }

  /** The matcher finds exactly the texts of that shape, with exactly those bounds. */
  lemma MatchesExactlyPins(s: string, floor: string, ceiling: string)
    ensures MatchPin(s) == Some((floor, ceiling)) <==> StartsWithPin(s, floor, ceiling)
  {
    hide MatchPin, PinText, IsBound, AllIn, Ends;
    if MatchPin(s).Some? {
      MatchIsPin(s);
    }
    if StartsWithPin(s, floor, ceiling) {
      var b1, b2, b3, b4, after :|
        && AllIn(Blanks, b1) && AllIn(Blanks, b2) && AllIn(Blanks, b3) && AllIn(Blanks, b4)
        && IsBound(floor) && IsBound(ceiling) && Ends(Dotted, after)
        && s == PinText(floor, ceiling, b1, b2, b3, b4, after);
      PinMatches(floor, ceiling, b1, b2, b3, b4, after);
    }
  }

  lemma NoMatch(s: string)
    requires s != "" && s[0] != '>'
    ensures MatchPin(s) == None
  {
    var p := ">=";
    assert p[0] == '>';
  }

  /** The match is the leftmost one, and there is none when no place matches. */
  lemma {:induction false} FindsLeftmost(s: string)
    ensures FindPin(s).None? ==> forall k :: 0 <= k <= |s| ==> MatchPin(s[k..]).None?
    ensures FindPin(s).Some? ==>
      exists k :: 0 <= k <= |s| && FindPin(s) == MatchPin(s[k..]) && forall j :: 0 <= j < k ==> MatchPin(s[j..]).None?
  {
    hide MatchPin;
    assert s[0..] == s;
    if MatchPin(s).None? && s != "" {
      FindsLeftmost(s[1..]);
      assert forall k :: 0 < k <= |s| ==> s[k..] == s[1..][k - 1..];
      if FindPin(s).Some? {
        var k :| 0 <= k <= |s| - 1 && FindPin(s[1..]) == MatchPin(s[1..][k..])
              && forall j :: 0 <= j < k ==> MatchPin(s[1..][j..]).None?;
        assert s[k + 1..] == s[1..][k..];
      }
    }
  }

  /** The check has nothing to say about exactly the texts without a range anywhere. */
  lemma NoRangeExactly(spec: string, version: string)
    ensures CheckPin(spec, version) == NoRange <==>
      forall k, floor, ceiling :: 0 <= k <= |spec| ==> !StartsWithPin(spec[k..], floor, ceiling)
  {
    hide MatchPin, FindPin, StartsWithPin;
    FindsLeftmost(spec);
    if FindPin(spec).None? {
      forall k, floor, ceiling | 0 <= k <= |spec| ensures !StartsWithPin(spec[k..], floor, ceiling) {
        MatchesExactlyPins(spec[k..], floor, ceiling);
      }
    } else {
      var k :| 0 <= k <= |spec| && FindPin(spec) == MatchPin(spec[k..]);
      MatchIsPin(spec[k..]);
    }
  }

  /** The pin of a requirement is found behind its name. */
  lemma {:induction false} PinFound(name: string, pin: string)
    requires '>' !in name && MatchPin(pin).Some?
    ensures FindPin(name + pin) == MatchPin(pin)
  {
    hide MatchPin;
    if name == "" {
      assert name + pin == pin;
    } else {
      NoMatch(name + pin);
      assert (name + pin)[0] == name[0];
      assert (name + pin)[1..] == name[1..] + pin;
      PinFound(name[1..], pin);
    }
  }

  // ---- what the checks decide ----

  /** The check passes t for a pin with these bounds. */
  predicate Passes(t: Triple, floor: seq<nat>, ceiling: seq<nat>) {
    !TupleLess(Components(t), Components(Truncated(floor))) && t.0 < Head(ceiling)
  }

  /** PEP 440: `floor <= t < ceiling`. */
  predicate InRange(t: Triple, floor: seq<nat>, ceiling: seq<nat>) {
    !Less(Components(t), floor) && Less(Components(t), ceiling)
  }

  /** The whole check on any requirement text, said about the two bounds found in it. */
  lemma PinDecides(spec: string, version: string)
    ensures CheckPin(spec, version) ==
      match FindPin(spec)
      case None => NoRange
      case Some((floor, ceiling)) =>
        if Split(ceiling)[0] == "" then Crash
        else if Passes(ParseVersion(version), Release(floor), Values(Split(ceiling))) then Fits
        else Stale
  {
    hide FindPin, ParseVersion, Padded, Release, Truncated, TupleLess, Split, Take;
    if FindPin(spec).Some? {
      PaddedReads(FindPin(spec).value.0);
      FirstPart(FindPin(spec).value.1);
    }
  }

  lemma FirstPart(s: string)
    requires AllIn(Dotted, s)
    ensures Take(Digits, s).0 == Split(s)[0] && Head(Values(Split(s))) == ParseDecimal(Split(s)[0])
  {
    var n := Span(Digits, s);
    assert n == |s| ==> s[..n] == s;
  }

  lemma {:induction false} ZeroPad(z: seq<nat>, r: seq<nat>)
    requires Zeros(z)
    ensures Less(z, r) <==> Less([], r)
    decreases |z| + |r|
  {
    if z != [] {
      assert Zeros(Tail(z));
      ZeroPad(Tail(z), Tail(r));
      if r == [] {
        BelowZeros(z, []);
      }
    }
  }

  /** `floor <= t < ceiling` needs `floor < ceiling`. */
  lemma {:induction false} BetweenIsOrdered(floor: seq<nat>, t: seq<nat>, ceiling: seq<nat>)
    requires !Less(t, floor) && Less(t, ceiling)
    ensures Less(floor, ceiling)
    decreases |floor| + |t| + |ceiling|
  {
    if Head(floor) == Head(t) == Head(ceiling) {
      BetweenIsOrdered(Tail(floor), Tail(t), Tail(ceiling));
    }
  }

  lemma Unfold(a: seq<nat>, b: seq<nat>)
    ensures Less(a, b) <==> Head(a) < Head(b) || (Head(a) == Head(b) && Less(Tail(a), Tail(b)))
  {
    if a == [] && b == [] {
      assert Tail(a) == a && Tail(b) == b;
    }
  }

  lemma HeadDecides(t: Triple, r: seq<nat>)
    ensures t.0 < Head(r) ==> Less(Components(t), r)
    ensures t.0 > Head(r) ==> !Less(Components(t), r)
    ensures Zeros(Tail(r)) ==> (Less(Components(t), r) <==> t.0 < Head(r))
    ensures t.1 == t.2 == 0 && t.0 == Head(r) ==> (Less(Components(t), r) <==> !Zeros(Tail(r)))
  {
    var c1 := [t.1, t.2];
    assert Components(t)[1..] == c1;
    Unfold(Components(t), r);
    if Zeros(Tail(r)) {
      BelowZeros(c1, Tail(r));
    }
    if t.1 == t.2 == 0 {
      ZeroPad(c1, Tail(r));
      ZerosBelow(Tail(r));
    }
  }

  /** A version that passes is within its pin, for every version, exactly for these pins. */
  lemma PinSoundExactly(floor: seq<nat>, ceiling: seq<nat>)
    ensures Zeros(Rest(floor)) || Head(floor) >= Head(ceiling) <==>
      forall t: Triple :: Passes(t, floor, ceiling) ==> InRange(t, floor, ceiling)
  {
    if Zeros(Rest(floor)) || Head(floor) >= Head(ceiling) {
      forall t: Triple | Passes(t, floor, ceiling) ensures InRange(t, floor, ceiling) {
        TripleOrder(t, floor);
        TripleTuple(t, Truncated(floor));
        HeadDecides(t, ceiling);
      }
    } else {
      var t := Truncated(floor);
      TripleOrder(t, floor);
      TripleTuple(t, t);
      assert Passes(t, floor, ceiling);
      assert !InRange(t, floor, ceiling);
    }
  }

  /** The least three-part version that is not below the floor. */
  function Least(floor: seq<nat>): Triple {
    var t := Truncated(floor);
    if Zeros(Rest(floor)) then t else (t.0, t.1, t.2 + 1)
  }

  lemma LeastIsLeast(t: Triple, floor: seq<nat>)
    ensures !Less(Components(t), floor) <==> !TupleLess(Components(t), Components(Least(floor)))
    ensures Less(Components(t), Components(Least(floor))) <==> TupleLess(Components(t), Components(Least(floor)))
  {
    TripleOrder(t, floor);
    TripleTuple(t, Truncated(floor));
    TripleTuple(t, Least(floor));
    TripleOrder(t, Components(Least(floor)));
    var l := Least(floor);
    assert Components(l)[1..] == [l.1, l.2] && [l.1, l.2][1..] == [l.2] && [l.2][1..] == [];
  }

  /** The pins for which the check decides as PEP 440 does. */
  predicate Exact(floor: seq<nat>, ceiling: seq<nat>) {
    (Zeros(Rest(floor)) && Zeros(Tail(ceiling))) || !Less(Components(Least(floor)), ceiling)
  }

  /**
   * Passing is being within the pin, for every version, exactly when the
   * ceiling is a bare major version and the floor has nothing nonzero past
   * its third component, or no three-part version is within the pin at all.
   */
  lemma PinExactly(floor: seq<nat>, ceiling: seq<nat>)
    ensures Exact(floor, ceiling) <==> forall t: Triple :: Passes(t, floor, ceiling) <==> InRange(t, floor, ceiling)
  {
    hide Less, TupleLess, Truncated, Zeros, Tail;
    if Exact(floor, ceiling) {
      forall t: Triple ensures Passes(t, floor, ceiling) <==> InRange(t, floor, ceiling) {
        if Less(Components(Least(floor)), ceiling) {
          TripleOrder(t, floor);
          HeadDecides(t, ceiling);
        } else {
          EmptyPin(t, floor, ceiling);
        }
      }
    } else {
      var t := PinWitness(floor, ceiling);
      assert Passes(t, floor, ceiling) != InRange(t, floor, ceiling);
    }
  }

  lemma EmptyPin(t: Triple, floor: seq<nat>, ceiling: seq<nat>)
    requires !Less(Components(Least(floor)), ceiling)
    ensures !Passes(t, floor, ceiling) && !InRange(t, floor, ceiling)
  {
    var l := Least(floor);
    LeastIsLeast(t, floor);
    HeadDecides(l, ceiling);
    TripleTuple(t, Truncated(floor));
    if InRange(t, floor, ceiling) {
      BetweenIsOrdered(Components(l), Components(t), ceiling);
    }
  }

  /** For every other pin, a version on which the check and PEP 440 differ. */
  lemma PinWitness(floor: seq<nat>, ceiling: seq<nat>) returns (t: Triple)
    requires !Exact(floor, ceiling)
    ensures Passes(t, floor, ceiling) != InRange(t, floor, ceiling)
  {
    var low := Truncated(floor);
    HeadDecides(Least(floor), ceiling);
    TripleTuple(low, low);
    if Zeros(Rest(floor)) {
      t := if Head(floor) < Head(ceiling) then (Head(ceiling), 0, 0) else low;
    } else {
      t := if Head(floor) < Head(ceiling) then low else Least(floor);
    }
    HeadDecides(t, ceiling);
    TripleOrder(t, floor);
    TripleTuple(t, low);
  }

  /**
   * `floor < required_floor` compares a triple with a pair: it is comparing
   * major and minor, and is PEP 440's order however long the floor was.
   */
  lemma PortFloorDecides(floor: string, a: nat, b: nat)
    requires AllIn(Dotted, floor)
    ensures var t := ParseVersion(Padded(floor));
      && (TupleLess(Components(t), [a, b]) <==> t.0 < a || (t.0 == a && t.1 < b))
      && (TupleLess(Components(t), [a, b]) <==> Less(Release(floor), [a, b]))
  {
    hide ParseVersion, Padded, Release;
    PaddedReads(floor);
    var r := Release(floor);
    var t := Truncated(r);
    var c1, c2 := [t.1, t.2], [t.2];
    assert Components(t)[1..] == c1 && c1[1..] == c2;
    assert [a, b][1..] == [b] && [b][1..] == [];
    assert TupleLess(c1, [b]) <==> t.1 < b || (t.1 == b && TupleLess(c2, []));
    Unfold(r, [a, b]);
    Unfold(Tail(r), [b]);
    BelowZeros(Tail(Tail(r)), []);
  }
}

/** `extract_yaml_list`, and the block lists that it reads back. */
module ChecklistYaml {
  import opened Text

  // ---- lines ----

  /** The characters that end a line for `splitlines()`. */
  predicate IsBreak(c: char) {
    var n := c as int;
    0x0A <= n <= 0x0D || 0x1C <= n <= 0x1E || n == 0x85 || n == 0x2028 || n == 0x2029
  }

  predicate IsLine(s: string) {
    forall i :: 0 <= i < |s| ==> !IsBreak(s[i])
  }

  /** One line end; a carriage return and the line feed after it are one. */
  predicate IsEnd(e: string) {
    e == "\r\n" || (|e| == 1 && IsBreak(e[0]))
  }

  /** The length of the first line of s. */
  function LineEnd(s: string): (n: nat)
    ensures n <= |s| && IsLine(s[..n]) && (n < |s| ==> IsBreak(s[n]))
  {
    if s == "" || IsBreak(s[0]) then 0
    else
      assert s[..1 + LineEnd(s[1..])] == [s[0]] + s[1..][..LineEnd(s[1..])];
      1 + LineEnd(s[1..])
  }

  /** The length of the line end at the start of s. */
  function BreakSize(s: string): (n: nat)
    requires s != ""
    ensures 0 < n <= |s|
  {
    if |s| > 1 && s[0] == '\r' && s[1] == '\n' then 2 else 1
  }

  /** `text.splitlines()` */
  function SplitLines(s: string): (lines: seq<string>)
    ensures forall i :: 0 <= i < |lines| ==> IsLine(lines[i])
    decreases |s|
  {
    if s == "" then []
    else
      var n := LineEnd(s);
      if n == |s| then
        assert s[..n] == s;
        [s]
      else [s[..n]] + SplitLines(s[n..][BreakSize(s[n..])..])
  }

  /** The text of these lines, each with its line end. */
  function Unlines(lines: seq<string>, ends: seq<string>): string
    requires |lines| == |ends|
  {
    if lines == [] then "" else lines[0] + (ends[0] + Unlines(lines[1..], ends[1..]))
  }

  /**
   * The lines can be told apart again: none holds a line end, each has one
   * (the last may have none, if it is not empty), and no carriage return is
   * followed by an empty line that ends in a line feed.
   */
  predicate Cuttable(lines: seq<string>, ends: seq<string>)
    requires |lines| == |ends|
  {
    lines != [] ==>
      && IsLine(lines[0])
      && (IsEnd(ends[0]) || (ends[0] == "" && |lines| == 1 && lines[0] != ""))
      && (ends[0] == "\r" && |lines| > 1 ==> lines[1] != "" || ends[1] != "\n")
      && Cuttable(lines[1..], ends[1..])
  }

  lemma {:induction false} LineEndExact(line: string, rest: string)
    requires IsLine(line) && (rest == "" || IsBreak(rest[0]))
    ensures LineEnd(line + rest) == |line|
  {
    if line == "" {
      assert line + rest == rest;
    } else {
      LineEndExact(line[1..], rest);
      assert (line + rest)[1..] == line[1..] + rest;
    }
  }

  /** Every line has a line end; the last may have none, if it is not empty. */
  predicate Ended(lines: seq<string>, ends: seq<string>)
    requires |lines| == |ends|
  {
    forall i :: 0 <= i < |lines| ==> IsEnd(ends[i]) || (ends[i] == "" && i == |lines| - 1 && lines[i] != "")
  }

  predicate AllLines(lines: seq<string>) {
    forall i :: 0 <= i < |lines| ==> IsLine(lines[i])
  }

  /** What splitting makes of one line, and of what follows it. */
  lemma SplitFirst(line: string, tail: string)
    requires IsLine(line) && line + tail != "" && (tail == "" || IsBreak(tail[0]))
    ensures SplitLines(line + tail) == [line] + (if tail == "" then [] else SplitLines(tail[BreakSize(tail)..]))
  {
    var s := line + tail;
    LineEndExact(line, tail);
    assert s[..|line|] == line && s[|line|..] == tail;
    if tail == "" {
      assert s == line;
    }
  }

  lemma FirstLine(lines: seq<string>, ends: seq<string>)
    requires |lines| == |ends| > 0 && Ended(lines, ends) && IsLine(lines[0])
    ensures var rest := Unlines(lines[1..], ends[1..]);
      SplitLines(Unlines(lines, ends)) == [lines[0]]
        + (if ends[0] == "" then [] else SplitLines((ends[0] + rest)[BreakSize(ends[0] + rest)..]))
  {
    hide SplitLines, BreakSize, IsLine, IsBreak;
    var tail := ends[0] + Unlines(lines[1..], ends[1..]);
    assert ends[0] == "" ==> tail == "";
    assert ends[0] != "" ==> IsEnd(ends[0]) && tail[0] == ends[0][0];
    assert ends[0] == "\r\n" ==> IsBreak(tail[0]) by { CarriageReturn(); }
    SplitFirst(lines[0], tail);
  }

  lemma CarriageReturn()
    ensures IsBreak('\r') && IsBreak('\n') && "\r\n"[0] == '\r' && "\r\n"[1] == '\n'
  {
  }

  /** The size of a line end before other text. */
  lemma BreakBefore(end: string, rest: string)
    requires IsEnd(end)
    ensures BreakSize(end + rest) == if end == "\r" && rest != "" && rest[0] == '\n' then 2 else |end|
  {
  }

  /** How the text of some lines begins. */
  lemma UnlinesStarts(lines: seq<string>, ends: seq<string>)
    requires |lines| == |ends| > 0 && Ended(lines, ends) && IsLine(lines[0])
    ensures Unlines(lines, ends) != ""
    ensures Unlines(lines, ends)[0] == '\n' <==> lines[0] == "" && ends[0] == "\n"
  {
    var s := Unlines(lines, ends);
    CarriageReturn();
    if lines[0] != "" {
      assert s[0] == lines[0][0];
    } else {
      assert s[0] == ends[0][0];
      assert |ends[0]| == 1 ==> ends[0] == [ends[0][0]];
    }
  }

  /** What the line end of the first line takes away: itself, or also the empty line after it. */
  lemma AfterBreak(lines: seq<string>, ends: seq<string>)
    requires |lines| == |ends| > 0 && Ended(lines, ends) && ends[0] != "" && AllLines(lines)
    ensures var rest := Unlines(lines[1..], ends[1..]);
      (ends[0] + rest)[BreakSize(ends[0] + rest)..]
      == if ends[0] == "\r" && |lines| > 1 && lines[1] == "" && ends[1] == "\n"
         then Unlines(lines[2..], ends[2..]) else rest
  {
    hide BreakSize, IsLine, IsEnd;
    var rest := Unlines(lines[1..], ends[1..]);
    BreakBefore(ends[0], rest);
    assert (ends[0] + rest)[|ends[0]|..] == rest;
    if |lines| > 1 {
      UnlinesStarts(lines[1..], ends[1..]);
      assert lines[1..][1..] == lines[2..] && ends[1..][1..] == ends[2..];
      if ends[0] == "\r" && lines[1] == "" && ends[1] == "\n" {
        var after := Unlines(lines[2..], ends[2..]);
        assert ends[0] + rest == "\r\n" + after;
        assert ("\r\n" + after)[2..] == after;
      }
    }
  }

  lemma {:induction false} NoMoreLines(lines: seq<string>, ends: seq<string>)
    requires |lines| == |ends| && Ended(lines, ends) && AllLines(lines)
    ensures |SplitLines(Unlines(lines, ends))| <= |lines|
    decreases |lines|
  {
    hide SplitLines, Unlines, BreakSize, IsLine, IsEnd;
    if lines == [] {
      NoText();
    } else {
      FirstLine(lines, ends);
      if ends[0] != "" {
        AfterBreak(lines, ends);
        NoMoreLines(lines[1..], ends[1..]);
        if |lines| > 1 {
          NoMoreLines(lines[2..], ends[2..]);
        }
      }
    }
  }

  lemma NoText()
    ensures SplitLines(Unlines([], [])) == []
  {
  }

  lemma {:induction false} CuttableLines(lines: seq<string>, ends: seq<string>)
    requires |lines| == |ends| && Cuttable(lines, ends)
    ensures Ended(lines, ends) && AllLines(lines)
  {
    hide IsLine, IsEnd;
    if lines != [] {
      CuttableLines(lines[1..], ends[1..]);
      assert lines == [lines[0]] + lines[1..] && ends == [ends[0]] + ends[1..];
    }
  }

  /** Whatever the line ends, lines that can be told apart are split back. */
  lemma {:induction false} LinesRoundTrip(lines: seq<string>, ends: seq<string>)
    requires |lines| == |ends| && Cuttable(lines, ends)
    ensures SplitLines(Unlines(lines, ends)) == lines
  {
    hide SplitLines, Unlines, BreakSize, IsLine;
    CuttableLines(lines, ends);
    if lines == [] {
      NoText();
    } else {
      FirstLine(lines, ends);
      if ends[0] != "" {
        AfterBreak(lines, ends);
        LinesRoundTrip(lines[1..], ends[1..]);
      }
      assert lines == [lines[0]] + lines[1..];
    }
  }

  /** Lines with line ends come back exactly when they can be told apart. */
  lemma {:induction false} LinesRoundTripExactly(lines: seq<string>, ends: seq<string>)
    requires |lines| == |ends| && Ended(lines, ends)
    ensures SplitLines(Unlines(lines, ends)) == lines <==> Cuttable(lines, ends)
  {
    hide SplitLines, Unlines, BreakSize, IsLine, IsEnd;
    if Cuttable(lines, ends) {
      LinesRoundTrip(lines, ends);
    }
    if lines != [] && SplitLines(Unlines(lines, ends)) == lines {
      assert AllLines(lines);
      FirstLine(lines, ends);
      if ends[0] != "" {
        AfterBreak(lines, ends);
        if ends[0] == "\r" && |lines| > 1 && lines[1] == "" && ends[1] == "\n" {
          NoMoreLines(lines[2..], ends[2..]);
          assert false;
        }
        LinesRoundTripExactly(lines[1..], ends[1..]);
      }
    }
  }

  // ---- stripping ----

  /** Without the characters of class k at the end. */
  function StripRight(k: Class, s: string): string {
    if s == "" || !In(k, s[|s| - 1]) then s else StripRight(k, s[..|s| - 1])
  }

  /** `s.strip()` of blanks, or `s.strip('"')`. */
  function Strip(k: Class, s: string): string {
    StripRight(k, s[Span(k, s)..])
  }

  /** Neither end is in class k. */
  predicate Bare(k: Class, s: string) {
    s != "" ==> !In(k, s[0]) && !In(k, s[|s| - 1])
  }

  lemma {:induction false} StripRightExact(k: Class, s: string, run: string)
    requires AllIn(k, run) && Bare(k, s)
    ensures StripRight(k, s + run) == s
  {
    if run == "" {
      assert s + run == s;
    } else {
      var t := s + run;
      assert t[..|t| - 1] == s + run[..|run| - 1];
      StripRightExact(k, s, run[..|run| - 1]);
    }
  }

  /** Stripping removes exactly what was put around. */
  lemma StripExact(k: Class, left: string, s: string, right: string)
    requires AllIn(k, left) && AllIn(k, right) && Bare(k, s)
    ensures Strip(k, left + s + right) == s
  {
    var t := left + s + right;
    if s == "" {
      var run := left + right;
      SpanExact(k, run, "");
      assert t == run + "" && t[|run|..] == "";
    } else {
      SpanExact(k, left, s + right);
      assert t == left + (s + right);
      assert t[|left|..] == s + right;
      StripRightExact(k, s, right);
    }
  }

  // ---- the extraction ----

  predicate IsItem(stripped: string) {
    "- " <= stripped
  }

  function ItemOf(stripped: string): string
    requires IsItem(stripped)
  {
    Strip(Quotes, Strip(Blanks, stripped[2..]))
  }

  /** A line that ends the list: neither an item, nor blank, nor a comment. */
  predicate Ending(stripped: string) {
    !IsItem(stripped) && stripped != "" && stripped[0] != '#'
  }

  /** The items up to the first line that ends the list. */
  function Items(lines: seq<string>): seq<string> {
    if lines == [] then []
    else
      var stripped := Strip(Blanks, lines[0]);
      if Ending(stripped) then []
      else (if IsItem(stripped) then [ItemOf(stripped)] else []) + Items(lines[1..])
  }

  /** The number of lines before the first that strips to the anchor. */
  function Before(lines: seq<string>, anchor: string): (n: nat)
    ensures n <= |lines|
  {
    if lines == [] || Strip(Blanks, lines[0]) == anchor then 0 else 1 + Before(lines[1..], anchor)
  }

  function Extract(lines: seq<string>, anchor: string): seq<string> {
    var n := Before(lines, anchor);
    if n == |lines| then [] else Items(lines[n + 1..])
  }

  lemma NothingBefore(anchor: string)
    ensures Before([], anchor) == 0
  {
  }

  lemma NoItems()
    ensures Items([]) == []
  {
  }

  lemma BeforeStep(lines: seq<string>, anchor: string, i: nat)
    requires i < |lines|
    ensures Before(lines[i..], anchor)
         == if Strip(Blanks, lines[i]) == anchor then 0 else 1 + Before(lines[i + 1..], anchor)
  {
    assert lines[i..][1..] == lines[i + 1..];
  }

  lemma ItemsStep(lines: seq<string>, i: nat)
    requires i < |lines|
    ensures var stripped := Strip(Blanks, lines[i]);
      Items(lines[i..]) == if Ending(stripped) then []
        else (if IsItem(stripped) then [ItemOf(stripped)] else []) + Items(lines[i + 1..])
  {
    assert lines[i..][1..] == lines[i + 1..];
  }

  method ExtractYamlList(text: string, anchor: string) returns (items: seq<string>)
    ensures items == Extract(SplitLines(text), anchor)
  {
    hide Strip, Items, Before, SplitLines;
    var lines := SplitLines(text);
    var start := 0;
    assert lines[0..] == lines;
    while start < |lines| && Strip(Blanks, lines[start]) != anchor
      invariant start <= |lines|
      invariant Before(lines, anchor) == start + Before(lines[start..], anchor)
    {
      BeforeStep(lines, anchor, start);
      start := start + 1;
    }
    items := [];
    if start == |lines| {
      NothingBefore(anchor);
      assert lines[start..] == [];
      return;
    }
    BeforeStep(lines, anchor, start);
    var rest := lines[start + 1..];
    var i := 0;
    assert rest[0..] == rest;
    while i < |rest|
      invariant i <= |rest|
      invariant Items(rest) == items + Items(rest[i..])
    {
      var stripped := Strip(Blanks, rest[i]);
      ItemsStep(rest, i);
      if "- " <= stripped {
        items := items + [Strip(Quotes, Strip(Blanks, stripped[2..]))];
      } else if stripped != "" && stripped[0] != '#' {
        return;
      }
      i := i + 1;
    }
    assert rest[i..] == [];
    NoItems();
  }

  // ---- rendering ----

  /** A line of a block list, with its blanks. */
  datatype Entry =
    | Item(indent: string, gap: string, quoted: bool, text: string, trail: string)
    | Comment(indent: string, text: string)
    | Blank(blanks: string)

  function Render(e: Entry): string {
    match e
    case Item(indent, gap, quoted, text, trail) =>
      indent + ("- " + gap + (if quoted then "\"" + text + "\"" else text)) + trail
    case Comment(indent, text) => indent + "#" + text
    case Blank(blanks) => blanks
  }

  /**
   * What can be written and read back: a quoted text has no quote at either
   * end, an unquoted one is not empty and has neither quote nor blank there.
   */
  predicate Writable(e: Entry) {
    match e
    case Item(indent, gap, quoted, text, trail) =>
      && AllIn(Blanks, indent) && AllIn(Blanks, gap) && AllIn(Blanks, trail)
      && Bare(Quotes, text) && (!quoted ==> text != "" && Bare(Blanks, text))
    case Comment(indent, _) => AllIn(Blanks, indent)
    case Blank(blanks) => AllIn(Blanks, blanks)
  }

  function Texts(entries: seq<Entry>): seq<string> {
    if entries == [] then []
    else (if entries[0].Item? then [entries[0].text] else []) + Texts(entries[1..])
  }

  function RenderAll(entries: seq<Entry>): seq<string> {
    seq(|entries|, i requires 0 <= i < |entries| => Render(entries[i]))
  }

  /** What stripping leaves is bare, and what it took is of the class. */
  lemma StripSplits(k: Class, s: string) returns (left: string, right: string)
    ensures s == left + Strip(k, s) + right && AllIn(k, left) && AllIn(k, right) && Bare(k, Strip(k, s))
  {
    var n := Span(k, s);
    left := s[..n];
    right := StripRightSplits(k, s[n..]);
    assert Strip(k, s) != "" ==> Strip(k, s)[0] == s[n..][0];
  }

  lemma {:induction false} StripRightSplits(k: Class, s: string) returns (right: string)
    ensures s == StripRight(k, s) + right && AllIn(k, right)
    ensures StripRight(k, s) != "" ==> !In(k, StripRight(k, s)[|StripRight(k, s)| - 1])
  {
    if s == "" || !In(k, s[|s| - 1]) {
      right := "";
    } else {
      var r := StripRightSplits(k, s[..|s| - 1]);
      right := r + [s[|s| - 1]];
    }
  }

  /** A text that is not empty and has no blank at either end is what the item line strips to. */
  lemma ItemLine(indent: string, gap: string, body: string, trail: string)
    requires AllIn(Blanks, indent) && AllIn(Blanks, gap) && AllIn(Blanks, trail)
    requires body != "" && Bare(Blanks, body)
    ensures var stripped := Strip(Blanks, indent + ("- " + gap + body) + trail);
      IsItem(stripped) && ItemOf(stripped) == Strip(Quotes, body)
  {
    var s := "- " + gap + body;
    assert s[0] == '-' && s[|s| - 1] == body[|body| - 1];
    StripExact(Blanks, indent, s, trail);
    assert s[2..] == gap + body + "";
    StripExact(Blanks, gap, body, "");
  }

  /** An item line without text is no item line: it strips to a dash. */
  lemma EmptyItemLine(indent: string, gap: string, trail: string)
    requires AllIn(Blanks, indent) && AllIn(Blanks, gap) && AllIn(Blanks, trail)
    ensures Strip(Blanks, indent + ("- " + gap) + trail) == "-"
  {
    var right := " " + gap + trail;
    assert indent + ("- " + gap) + trail == indent + "-" + right;
    StripExact(Blanks, indent, "-", right);
  }

  lemma StripsToItself(k: Class, left: string, s: string, right: string)
    requires AllIn(k, left) && AllIn(k, right)
    ensures Strip(k, left + s + right) == s <==> Bare(k, s)
  {
    if Bare(k, s) {
      StripExact(k, left, s, right);
    } else {
      var l, r := StripSplits(k, left + s + right);
    }
  }

  /** The item line e is read back as its text. */
  predicate ReadsBack(e: Entry)
    requires e.Item?
  {
    IsItem(Strip(Blanks, Render(e))) && ItemOf(Strip(Blanks, Render(e))) == e.text
  }

  /** An item is read back exactly when it is writable. */
  lemma ItemReadsBackExactly(e: Entry)
    requires e.Item? && AllIn(Blanks, e.indent) && AllIn(Blanks, e.gap) && AllIn(Blanks, e.trail)
    ensures ReadsBack(e) <==> Writable(e)
  {
    hide Strip;
    var text := e.text;
    if e.quoted {
      ItemLine(e.indent, e.gap, "\"" + text + "\"", e.trail);
      StripsToItself(Quotes, "\"", text, "\"");
    } else if text == "" {
      assert "- " + e.gap + text == "- " + e.gap;
      EmptyItemLine(e.indent, e.gap, e.trail);
    } else if Bare(Blanks, text) {
      ItemLine(e.indent, e.gap, text, e.trail);
      assert "" + text + "" == text;
      StripsToItself(Quotes, "", text, "");
    } else {
      BlankEnds(e);
    }
  }

  lemma StripShortens(k: Class, s: string)
    ensures |Strip(k, s)| <= |s|
    ensures !Bare(k, s) ==> |Strip(k, s)| < |s|
  {
    hide Strip;
    var l, r := StripSplits(k, s);
    var core := Strip(k, s);
    assert "" + core + "" == core;
  }

  lemma RegroupItem(e: Entry, l: string, core: string, r: string)
    requires e.Item? && !e.quoted && e.text == l + core + r
    ensures Render(e) == e.indent + ("- " + (e.gap + l) + core) + (r + e.trail)
  {
  }

  lemma DashIsNoItem()
    ensures !IsItem("-")
  {
  }

  /** An unquoted text with a blank at an end loses it. */
  lemma BlankEnds(e: Entry)
    requires e.Item? && AllIn(Blanks, e.indent) && AllIn(Blanks, e.gap) && AllIn(Blanks, e.trail)
    requires !e.quoted && !Bare(Blanks, e.text)
    ensures !ReadsBack(e)
  {
    hide Strip, Bare, IsItem, ItemOf;
    var l, r := StripSplits(Blanks, e.text);
    var core := Strip(Blanks, e.text);
    StripShortens(Blanks, e.text);
    RegroupItem(e, l, core, r);
    hide Render;
    if core == "" {
      assert "- " + (e.gap + l) + core == "- " + (e.gap + l);
      DashIsNoItem();
      EmptyItemLine(e.indent, e.gap + l, r + e.trail);
    } else {
      ItemLine(e.indent, e.gap + l, core, r + e.trail);
      StripShortens(Quotes, core);
    }
  }

  lemma {:induction false} StripRightKeepsFirst(k: Class, s: string)
    requires s != "" && !In(k, s[0])
    ensures StripRight(k, s) != "" && StripRight(k, s)[0] == s[0]
  {
    if In(k, s[|s| - 1]) {
      StripRightKeepsFirst(k, s[..|s| - 1]);
    }
  }

  /** Comments and blank lines are passed over. */
  lemma PassedOver(e: Entry)
    requires !e.Item? && Writable(e)
    ensures !IsItem(Strip(Blanks, Render(e))) && !Ending(Strip(Blanks, Render(e)))
  {
    match e {
      case Comment(indent, text) => {
        var s := "#" + text;
        SpanExact(Blanks, indent, s);
        assert Render(e) == indent + s && Render(e)[|indent|..] == s;
        StripRightKeepsFirst(Blanks, s);
      }
      case Blank(blanks) => {
        StripExact(Blanks, blanks, "", "");
        assert blanks + "" + "" == blanks;
      }
    }
  }

  /** A written line is an item with its text, or passed over. */
  lemma WrittenLine(e: Entry)
    requires Writable(e)
    ensures var stripped := Strip(Blanks, Render(e));
      !Ending(stripped) && (IsItem(stripped) <==> e.Item?) && (e.Item? ==> ItemOf(stripped) == e.text)
  {
    hide Strip, Render;
    if e.Item? {
      ItemReadsBackExactly(e);
    } else {
      PassedOver(e);
    }
  }

  lemma {:induction false} ItemsRendered(entries: seq<Entry>, after: seq<string>)
    requires forall i :: 0 <= i < |entries| ==> Writable(entries[i])
    requires after != [] ==> Ending(Strip(Blanks, after[0]))
    ensures Items(RenderAll(entries) + after) == Texts(entries)
  {
    var lines := RenderAll(entries) + after;
    if entries == [] {
      assert lines == after;
    } else {
      hide Strip, Render, Writable, IsItem, ItemOf, Ending;
      WrittenLine(entries[0]);
      assert lines[0] == Render(entries[0]);
      assert lines[1..] == RenderAll(entries[1..]) + after;
      ItemsRendered(entries[1..], after);
    }
  }

  lemma {:induction false} AnchorFound(before: seq<string>, rest: seq<string>, anchor: string)
    requires forall i :: 0 <= i < |before| ==> Strip(Blanks, before[i]) != anchor
    requires rest != [] && Strip(Blanks, rest[0]) == anchor
    ensures Before(before + rest, anchor) == |before|
  {
    if before == [] {
      assert before + rest == rest;
    } else {
      AnchorFound(before[1..], rest, anchor);
      assert (before + rest)[1..] == before[1..] + rest;
    }
  }

  /** Text that is neither a comment nor starts with a dash and a blank. */
  predicate OtherLine(stripped: string) {
    stripped != "" && stripped[0] != '#' && (stripped[0] == '-' ==> |stripped| == 1 || stripped[1] != ' ')
  }

  /** Without a line that strips to the anchor there are no items. */
  lemma {:induction false} NoAnchorNoItems(lines: seq<string>, anchor: string)
    requires forall i :: 0 <= i < |lines| ==> Strip(Blanks, lines[i]) != anchor
    ensures Extract(lines, anchor) == []
  {
    hide Strip, Items;
    NeverBefore(lines, anchor);
  }

  lemma {:induction false} NeverBefore(lines: seq<string>, anchor: string)
    requires forall i :: 0 <= i < |lines| ==> Strip(Blanks, lines[i]) != anchor
    ensures Before(lines, anchor) == |lines|
  {
    hide Strip;
    if lines != [] {
      NeverBefore(lines[1..], anchor);
    }
  }

  /**
   * Extraction undoes rendering: whatever lines come before the anchor,
   * whatever blanks, quotes, comments, blank lines and line ends the list is
   * written with, its texts come back in order, up to the first other line.
   */
  lemma ExtractionUndoesRendering(before: seq<string>, anchorLine: string, anchor: string,
                                  entries: seq<Entry>, after: seq<string>, ends: seq<string>)
    requires forall i :: 0 <= i < |before| ==> Strip(Blanks, before[i]) != anchor
    requires Strip(Blanks, anchorLine) == anchor
    requires forall i :: 0 <= i < |entries| ==> Writable(entries[i])
    requires after != [] ==> OtherLine(Strip(Blanks, after[0]))
    requires var all := before + ([anchorLine] + (RenderAll(entries) + after));
      |ends| == |all| && Cuttable(all, ends)
    ensures var all := before + ([anchorLine] + (RenderAll(entries) + after));
      Extract(SplitLines(Unlines(all, ends)), anchor) == Texts(entries)
  {
    hide Strip, Items, RenderAll, Cuttable;
    var rest := RenderAll(entries) + after;
    var all := before + ([anchorLine] + rest);
    LinesRoundTrip(all, ends);
    AnchorFound(before, [anchorLine] + rest, anchor);
    assert all[|before| + 1..] == rest;
    ItemsRendered(entries, after);
  }
}
