/**
  Dotted version numbers: parsing, the zero-padded order, and what the order means for a client
  that installs what it is offered.
 */
module Versions {
  import opened Wrappers

  const U64_LIMIT: nat := 0x1_0000_0000_0000_0000

  // --- Parsing --------------------------------------------------------------------------------------

  predicate IsSpace(c: char) {
    || '\t' <= c <= '\r' || c == ' ' || c == '\U{85}' || c == '\U{A0}' || c == '\U{1680}'
    || '\U{2000}' <= c <= '\U{200A}' || c == '\U{2028}' || c == '\U{2029}' || c == '\U{202F}'
    || c == '\U{205F}' || c == '\U{3000}'
  }

  predicate IsDigit(c: char) {
    '0' <= c <= '9'
  }

  function TrimStart(s: string): string {
    if s != "" && IsSpace(s[0]) then TrimStart(s[1..]) else s
  }

  function TrimEnd(s: string): string {
    if s != "" && IsSpace(s[|s| - 1]) then TrimEnd(s[..|s| - 1]) else s
  }

  // What comes before the first pre-release or build mark.
  function Core(s: string): string {
    if s == "" || s[0] == '-' || s[0] == '+' then "" else [s[0]] + Core(s[1..])
  }

  function SplitDots(s: string): (parts: seq<string>)
    ensures parts != []
  {
    if s == "" then [""]
    else
      var rest := SplitDots(s[1..]);
      if s[0] == '.' then [""] + rest else [[s[0]] + rest[0]] + rest[1..]
  }

  function DigitsValue(s: string): nat
    requires forall c | c in s :: IsDigit(c)
  {
    if s == "" then 0
    else
      assert s[|s| - 1] in s && IsDigit(s[|s| - 1]);
      DigitsValue(s[..|s| - 1]) * 10 + (s[|s| - 1] as int - '0' as int)
  }

  // An unsigned 64-bit decimal; the core holds no sign.
  function ParseNumber(s: string): Option<nat> {
    if s != "" && (forall c | c in s :: IsDigit(c)) && DigitsValue(s) < U64_LIMIT then Some(DigitsValue(s)) else None
  }

  function ParseAll(parts: seq<string>): Option<seq<nat>> {
    if parts == [] then Some([])
    else
      var n := |parts| - 1;
      var before, last := ParseAll(parts[..n]), ParseNumber(parts[n]);
      if before.Some? && last.Some? then Some(before.value + [last.value]) else None
  }

  function VersionParts(value: string): Option<seq<nat>> {
    var core := TrimEnd(TrimStart(Core(value)));
    if core == "" then None else ParseAll(SplitDots(core))
  }

  method ParseVersion(value: string) returns (parts: Option<seq<nat>>)
    ensures parts == VersionParts(value)
  {
    var core := TrimEnd(TrimStart(Core(value)));
    if core == "" {
      return None;
    }
    var segments := SplitDots(core);
    var numbers: seq<nat> := [];
    for i := 0 to |segments|
      invariant ParseAll(segments[..i]) == Some(numbers)
    {
      assert segments[..i + 1][..i] == segments[..i];
      var number := ParseNumber(segments[i]);
      if number.None? {
        ParseFailsEarly(segments, i + 1);
        return None;
      }
      numbers := numbers + [number.value];
    }
    assert segments[..|segments|] == segments;
    parts := Some(numbers);
  }

  // A segment that does not parse spoils the whole version.
  lemma {:induction false} ParseFailsEarly(parts: seq<string>, n: nat)
    requires n <= |parts| && ParseAll(parts[..n]).None?
    ensures ParseAll(parts).None?
  {
    if n < |parts| {
      assert parts[..|parts| - 1][..n] == parts[..n];
      ParseFailsEarly(parts[..|parts| - 1], n);
    } else {
      assert parts[..n] == parts;
    }
  }

  // --- What reads as a version ----------------------------------------------------------------------

  predicate Blank(s: string) {
    forall c | c in s :: IsSpace(c)
  }

  // Nothing, or a pre-release or build mark and whatever follows it.
  predicate Suffix(s: string) {
    s == "" || s[0] == '-' || s[0] == '+'
  }

  // Decimal digits, leading zeros allowed, below the limit of 64 bits.
  predicate Segment(s: string, number: nat) {
    s != "" && (forall c | c in s :: IsDigit(c)) && DigitsValue(s) == number < U64_LIMIT
  }

  function Join(segments: seq<string>): string
    requires segments != []
  {
    if |segments| == 1 then segments[0] else segments[0] + "." + Join(segments[1..])
  }

  // The text is the numbers, written with dots between them, blank space around and a suffix behind.
  ghost predicate Writes(value: string, parts: seq<nat>, before: string, segments: seq<string>, after: string,
                         suffix: string) {
    && segments != [] && |segments| == |parts|
    && value == before + Join(segments) + after + suffix
    && Blank(before) && Blank(after) && Suffix(suffix)
    && forall i | 0 <= i < |parts| :: Segment(segments[i], parts[i])
  }

  lemma {:induction false} CoreSplits(s: string) returns (suffix: string)
    ensures s == Core(s) + suffix && Suffix(suffix)
    ensures forall c | c in Core(s) :: c != '-' && c != '+'
  {
    if s == "" || s[0] == '-' || s[0] == '+' {
      suffix := s;
    } else {
      suffix := CoreSplits(s[1..]);
      assert s == [s[0]] + s[1..];
    }
  }

  lemma {:induction false} CoreOf(s: string, suffix: string)
    requires (forall c | c in s :: c != '-' && c != '+') && Suffix(suffix)
    ensures Core(s + suffix) == s
  {
    if s == "" {
      assert s + suffix == suffix;
    } else {
      assert s[0] in s && (s + suffix)[1..] == s[1..] + suffix;
      forall c | c in s[1..] ensures c != '-' && c != '+' {
        assert c in s;
      }
      CoreOf(s[1..], suffix);
    }
  }

  lemma {:induction false} TrimStartSplits(s: string) returns (before: string)
    ensures s == before + TrimStart(s) && Blank(before)
  {
    if s != "" && IsSpace(s[0]) {
      var rest := TrimStartSplits(s[1..]);
      before := [s[0]] + rest;
      assert s == [s[0]] + s[1..];
    } else {
      before := "";
    }
  }

  lemma {:induction false} TrimEndSplits(s: string) returns (after: string)
    ensures s == TrimEnd(s) + after && Blank(after)
  {
    if s != "" && IsSpace(s[|s| - 1]) {
      var rest := TrimEndSplits(s[..|s| - 1]);
      after := rest + [s[|s| - 1]];
      assert s == s[..|s| - 1] + [s[|s| - 1]];
    } else {
      after := "";
    }
  }

  lemma {:induction false} TrimStartOf(before: string, s: string)
    requires Blank(before) && s != "" && !IsSpace(s[0])
    ensures TrimStart(before + s) == s
  {
    if before == "" {
      assert before + s == s;
    } else {
      assert before[0] in before && (before + s)[1..] == before[1..] + s;
      TrimStartOf(before[1..], s);
    }
  }

  lemma {:induction false} TrimEndOf(s: string, after: string)
    requires Blank(after) && s != "" && !IsSpace(s[|s| - 1])
    ensures TrimEnd(s + after) == s
  {
    if after == "" {
      assert s + after == s;
    } else {
      var n := |after| - 1;
      assert after[n] in after && (s + after)[..|s + after| - 1] == s + after[..n];
      TrimEndOf(s, after[..n]);
    }
  }

  predicate Plain(s: string) {
    forall c | c in s :: IsDigit(c) || c == '.'
  }

  lemma {:induction false} SplitSegment(digits: string, rest: string)
    requires forall c | c in digits :: IsDigit(c)
    ensures SplitDots(digits) == [digits]
    ensures SplitDots(digits + "." + rest) == [digits] + SplitDots(rest)
  {
    var all := digits + "." + rest;
    if digits == "" {
      assert all[1..] == rest;
    } else {
      assert digits[0] in digits;
      SplitSegment(digits[1..], rest);
      assert all[1..] == digits[1..] + "." + rest;
      assert [digits[0]] + digits[1..] == digits;
    }
  }

  lemma {:induction false} SplitJoins(s: string)
    ensures Join(SplitDots(s)) == s
  {
    if s != "" {
      SplitJoins(s[1..]);
      assert s == [s[0]] + s[1..];
    }
  }

  // Digits and dots only, starting and ending with a digit.
  lemma {:induction false} JoinedDigits(segments: seq<string>)
    requires segments != []
    requires forall i | 0 <= i < |segments| :: segments[i] != "" && forall c | c in segments[i] :: IsDigit(c)
    ensures Plain(Join(segments)) && Join(segments) != ""
    ensures IsDigit(Join(segments)[0]) && IsDigit(Join(segments)[|Join(segments)| - 1])
    ensures SplitDots(Join(segments)) == segments
  {
    assert segments[0][0] in segments[0] && segments[0][|segments[0]| - 1] in segments[0];
    if |segments| == 1 {
      SplitSegment(segments[0], "");
    } else {
      JoinedDigits(segments[1..]);
      SplitSegment(segments[0], Join(segments[1..]));
    }
  }

  lemma {:induction false} ParseAllMeans(segments: seq<string>)
    ensures ParseAll(segments).Some? ==>
              && |ParseAll(segments).value| == |segments|
              && forall i | 0 <= i < |segments| :: Segment(segments[i], ParseAll(segments).value[i])
  {
    if segments != [] { ParseAllMeans(segments[..|segments| - 1]); }
  }

  lemma {:induction false} ParseAllOf(segments: seq<string>, parts: seq<nat>)
    requires |segments| == |parts| && forall i | 0 <= i < |parts| :: Segment(segments[i], parts[i])
    ensures ParseAll(segments) == Some(parts)
  {
    if parts != [] {
      var n := |parts| - 1;
      ParseAllOf(segments[..n], parts[..n]);
      assert parts == parts[..n] + [parts[n]];
    }
  }

  // Whatever reads as a version is written as one.
  lemma ReadsWhatIsWritten(value: string) returns (before: string, segments: seq<string>, after: string, suffix: string)
    requires VersionParts(value).Some?
    ensures Writes(value, VersionParts(value).value, before, segments, after, suffix)
  {
    suffix := CoreSplits(value);
    before := TrimStartSplits(Core(value));
    after := TrimEndSplits(TrimStart(Core(value)));
    var core := TrimEnd(TrimStart(Core(value)));
    segments := SplitDots(core);
    SplitJoins(core);
    ParseAllMeans(segments);
    assert value == before + core + after + suffix;
  }

  // And whatever is written as one reads back as its numbers.
  lemma WrittenIsRead(value: string, parts: seq<nat>, before: string, segments: seq<string>, after: string,
                      suffix: string)
    requires Writes(value, parts, before, segments, after, suffix)
    ensures VersionParts(value) == Some(parts)
  {
    JoinedDigits(segments);
    var core := Join(segments);
    var text := before + core + after;
    forall c | c in text ensures c != '-' && c != '+' {
      assert c in before || c in core || c in after;
    }
    CoreOf(text, suffix);
    assert text + suffix == value;
    assert text == before + (core + after) && (core + after)[0] == core[0];
    TrimStartOf(before, core + after);
    TrimEndOf(core, after);
    ParseAllOf(segments, parts);
  }

  // So a text reads as these numbers if and only if it is a way of writing them.
  lemma ReadsIffWritten(value: string, parts: seq<nat>)
    ensures VersionParts(value) == Some(parts) <==>
              exists before, segments, after, suffix :: Writes(value, parts, before, segments, after, suffix)
  {
    if VersionParts(value) == Some(parts) {
      var before, segments, after, suffix := ReadsWhatIsWritten(value);
    }
    if before, segments, after, suffix :| Writes(value, parts, before, segments, after, suffix) {
      WrittenIsRead(value, parts, before, segments, after, suffix);
    }
  }

  // --- Writing a version, and reading it back -------------------------------------------------------

  function Digits(n: nat): (s: string)
    ensures s != ""
  {
    var last := ('0' as int + n % 10) as char;
    if n < 10 then [last] else Digits(n / 10) + [last]
  }

  function Render(parts: seq<nat>): string
    requires parts != []
  {
    if |parts| == 1 then Digits(parts[0]) else Digits(parts[0]) + "." + Render(parts[1..])
  }

  lemma {:induction false} DigitsRoundTrip(n: nat)
    ensures forall c | c in Digits(n) :: IsDigit(c)
    ensures DigitsValue(Digits(n)) == n
  {
    var s := Digits(n);
    if n >= 10 {
      DigitsRoundTrip(n / 10);
      assert s[..|s| - 1] == Digits(n / 10);
    }
  }

  lemma {:induction false} DigitSegments(parts: seq<nat>) returns (segments: seq<string>)
    requires parts != [] && forall i | 0 <= i < |parts| :: parts[i] < U64_LIMIT
    ensures |segments| == |parts| && Join(segments) == Render(parts)
    ensures forall i | 0 <= i < |parts| :: Segment(segments[i], parts[i])
  {
    DigitsRoundTrip(parts[0]);
    segments := [Digits(parts[0])];
    if |parts| > 1 {
      var rest := DigitSegments(parts[1..]);
      segments := segments + rest;
      assert segments[1..] == rest;
      assert forall i | 1 <= i < |parts| :: segments[i] == rest[i - 1] && parts[i] == parts[1..][i - 1];
    }
  }

  lemma BareIsRead(parts: seq<nat>, segments: seq<string>, text: string, suffix: string)
    requires segments != [] && |segments| == |parts| && Join(segments) == text && Suffix(suffix)
    requires forall i | 0 <= i < |parts| :: Segment(segments[i], parts[i])
    ensures VersionParts(text + suffix) == Some(parts)
  {
    var blank: string := "";
    assert blank + text + blank == text;
    WrittenIsRead(text + suffix, parts, blank, segments, blank, suffix);
  }

  // Every list of 64-bit numbers can be written as a version, and whatever pre-release or build
  // suffix follows, reading it gives the list back.
  lemma RoundTrip(parts: seq<nat>, suffix: string)
    requires parts != [] && forall i | 0 <= i < |parts| :: parts[i] < U64_LIMIT
    requires suffix == "" || suffix[0] == '-' || suffix[0] == '+'
    ensures VersionParts(Render(parts) + suffix) == Some(parts)
  {
    var segments := DigitSegments(parts);
    BareIsRead(parts, segments, Render(parts), suffix);
  }

  // --- The order ------------------------------------------------------------------------------------

  datatype Ordering = Less | Equal | Greater

  function Max(a: nat, b: nat): nat {
    if a < b then b else a
  }

  // A missing part counts as zero.
  function At(parts: seq<nat>, i: nat): nat {
    if i < |parts| then parts[i] else 0
  }

  // `left` comes first at position `i`, the first place where the two differ.
  ghost predicate LessAt(left: seq<nat>, right: seq<nat>, i: nat) {
    At(left, i) < At(right, i) && forall j: nat | j < i :: At(left, j) == At(right, j)
  }

  ghost predicate Below(left: seq<nat>, right: seq<nat>) {
    exists i: nat :: LessAt(left, right, i)
  }

  ghost predicate Same(left: seq<nat>, right: seq<nat>) {
    forall i: nat :: At(left, i) == At(right, i)
  }

  function CompareFrom(left: seq<nat>, right: seq<nat>, i: nat): Ordering
    decreases Max(|left|, |right|) - i
  {
    if i >= Max(|left|, |right|) then Equal
    else if At(left, i) < At(right, i) then Less
    else if At(left, i) > At(right, i) then Greater
    else CompareFrom(left, right, i + 1)
  }

  function Compare(left: seq<nat>, right: seq<nat>): Ordering {
    CompareFrom(left, right, 0)
  }

  method CompareParts(left: seq<nat>, right: seq<nat>) returns (ordering: Ordering)
    ensures ordering == Compare(left, right)
  {
    var len := Max(Max(|left|, |right|), 3);
    for i := 0 to len
      invariant CompareFrom(left, right, i) == Compare(left, right)
    {
      var l, r := At(left, i), At(right, i);
      if l < r {
        return Less;
      }
      if l > r {
        return Greater;
      }
    }
    ordering := Equal;
  }

  lemma {:induction false} CompareFromMeans(left: seq<nat>, right: seq<nat>, i: nat)
    requires forall j: nat | j < i :: At(left, j) == At(right, j)
    ensures CompareFrom(left, right, i) == Less ==> Below(left, right)
    ensures CompareFrom(left, right, i) == Greater ==> Below(right, left)
    ensures CompareFrom(left, right, i) == Equal ==> Same(left, right)
    decreases Max(|left|, |right|) - i
  {
    if i < Max(|left|, |right|) {
      if At(left, i) == At(right, i) {
        CompareFromMeans(left, right, i + 1);
      } else if At(left, i) < At(right, i) {
        assert LessAt(left, right, i);
      } else {
        assert LessAt(right, left, i);
      }
    }
  }

  // Comparison is the lexicographic order on the parts followed by zeros without end.
  lemma CompareMeans(left: seq<nat>, right: seq<nat>)
    ensures Compare(left, right) == Less <==> Below(left, right)
    ensures Compare(left, right) == Greater <==> Below(right, left)
    ensures Compare(left, right) == Equal <==> Same(left, right)
  {
    CompareFromMeans(left, right, 0);
    if Below(left, right) { BelowIsStrict(left, right); }
    if Below(right, left) { BelowIsStrict(right, left); }
  }

  lemma BelowIsStrict(left: seq<nat>, right: seq<nat>)
    requires Below(left, right)
    ensures !Same(left, right) && !Below(right, left)
  {
    var i: nat :| LessAt(left, right, i);
    forall j: nat ensures !LessAt(right, left, j) {
      if j < i { assert At(left, j) == At(right, j); }
    }
  }

  lemma BelowIsTransitive(a: seq<nat>, b: seq<nat>, c: seq<nat>)
    requires Below(a, b) || Same(a, b)
    requires Below(b, c) || Same(b, c)
    ensures Below(a, c) || Same(a, c)
    ensures Below(a, b) || Below(b, c) ==> Below(a, c)
  {
    if Below(a, b) && Below(b, c) {
      var i: nat :| LessAt(a, b, i);
      var j: nat :| LessAt(b, c, j);
      assert LessAt(a, c, if i < j then i else j);
    } else if Below(a, b) {
      var i: nat :| LessAt(a, b, i);
      assert LessAt(a, c, i);
    } else if Below(b, c) {
      var j: nat :| LessAt(b, c, j);
      assert LessAt(a, c, j);
    }
  }

  // A part that is missing counts as zero: one more part makes a version higher unless it is zero.
  lemma MissingPartIsZero(parts: seq<nat>, last: nat)
    ensures Compare(parts, parts + [last]) == if last == 0 then Equal else Less
  {
    CompareMeans(parts, parts + [last]);
    if last > 0 { assert LessAt(parts, parts + [last], |parts|); }
  }

  // Comparison never contradicts itself: it is total, and swapping the sides swaps the answer.
  lemma CompareSwaps(left: seq<nat>, right: seq<nat>)
    ensures Compare(left, right) == Less <==> Compare(right, left) == Greater
    ensures Compare(left, right) == Equal <==> Compare(right, left) == Equal
  {
    CompareMeans(left, right);
    CompareMeans(right, left);
  }

  predicate VersionGreater(target: string, current: string) {
    var t, c := VersionParts(target), VersionParts(current);
    t.Some? && c.Some? && Compare(t.value, c.value).Greater?
  }

  predicate VersionAtLeast(value: string, minimum: string) {
    var v, m := VersionParts(value), VersionParts(minimum);
    v.Some? && m.Some? && !Compare(v.value, m.value).Less?
  }

  // On versions that parse, greater is the opposite of the other being at least as high; on any
  // other pair both answer no.
  lemma GreaterIsNotAtLeast(a: string, b: string)
    ensures VersionParts(a).Some? && VersionParts(b).Some? ==> (VersionGreater(a, b) <==> !VersionAtLeast(b, a))
    ensures VersionParts(a).None? || VersionParts(b).None? ==> !VersionGreater(a, b) && !VersionAtLeast(b, a)
  {
    if VersionParts(a).Some? && VersionParts(b).Some? {
      CompareSwaps(VersionParts(a).value, VersionParts(b).value);
    }
  }

  lemma GreaterIsTransitive(a: string, b: string, c: string)
    requires VersionGreater(a, b) && VersionGreater(b, c)
    ensures VersionGreater(a, c)
  {
    var high, mid, low := VersionParts(a).value, VersionParts(b).value, VersionParts(c).value;
    CompareMeans(high, mid);
    CompareMeans(mid, low);
    CompareMeans(high, low);
    BelowIsTransitive(low, mid, high);
  }

  // A greater version is another version, under every spelling.
  lemma GreaterIsDifferent(a: string, b: string)
    requires VersionGreater(a, b)
    ensures a != b && !Same(VersionParts(a).value, VersionParts(b).value) && !VersionGreater(b, a)
  {
    CompareMeans(VersionParts(a).value, VersionParts(b).value);
    CompareMeans(VersionParts(b).value, VersionParts(a).value);
  }

  // Each version was offered to a client that ran the one before it.
  ghost predicate Offered(versions: seq<string>) {
    forall i | 0 <= i < |versions| - 1 :: VersionGreater(versions[i + 1], versions[i])
  }

  // Installing what is offered only climbs: no version comes back, not even under another spelling.
  lemma {:induction false} NeverReturns(versions: seq<string>, i: nat, j: nat)
    requires Offered(versions) && i < j < |versions|
    ensures VersionGreater(versions[j], versions[i])
    ensures versions[j] != versions[i] && !Same(VersionParts(versions[j]).value, VersionParts(versions[i]).value)
    decreases j - i
  {
    assert VersionGreater(versions[j - 1 + 1], versions[j - 1]);
    if i < j - 1 {
      NeverReturns(versions, i, j - 1);
      GreaterIsTransitive(versions[j], versions[j - 1], versions[i]);
    }
    GreaterIsDifferent(versions[j], versions[i]);
  }
}
