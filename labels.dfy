/** The frame-label grammar of `_FRAME_PATTERN`, `(\w+)\s(\w+)\s(\d+)\s?`, applied as a prefix
    match, written out as an explicit scanner; and the decimal reading `int(frame)` of the
    index group. Character classes are ASCII. */
module Labels {
  import opened Wrappers

  /** The two classes the pattern repeats with `+`: `\w` and `\d`. */
  datatype CharClass = Word | Digit

  predicate IsDigit(c: char) {
    '0' <= c <= '9'
  }

  predicate IsWordChar(c: char) {
    'a' <= c <= 'z' || 'A' <= c <= 'Z' || IsDigit(c) || c == '_'
  }

  /** `\s` on ASCII text: space, tab, line feed, vertical tab, form feed, carriage return and the
      four separators U+001C..U+001F, which Python's `str.isspace` also counts. */
  predicate IsSpace(c: char) {
    c == ' ' || ('\t' <= c <= '\r') || ('\U{1C}' <= c <= '\U{1F}')
  }

  predicate InClass(c: char, k: CharClass) {
    match k
    case Word => IsWordChar(c)
    case Digit => IsDigit(c)
  }

  predicate AllIn(s: string, k: CharClass) {
    forall i :: 0 <= i < |s| ==> InClass(s[i], k)
  }

  /** A non-empty run of class `k`, what `\w+` or `\d+` consumes. */
  predicate IsRun(s: string, k: CharClass) {
    |s| > 0 && AllIn(s, k)
  }

  /** Length of the longest prefix of `s` whose characters are all of class `k`: the greedy run. */
  function Span(s: string, k: CharClass): (n: nat)
    ensures n <= |s|
    ensures AllIn(s[..n], k)
    ensures n == |s| || !InClass(s[n], k)
  {
    if s == [] || !InClass(s[0], k) then 0
    else
      var n := 1 + Span(s[1..], k);
      assert s[..n] == [s[0]] + s[1..][..n - 1];
      n
  }

  /** The parts of a matched label: the three groups, the two separators and the text after the
      index digits (which the pattern ignores). */
  datatype LabelMatch = LabelMatch(layer: string, sep1: char, tag: string, sep2: char, digits: string, rest: string)

  /** `text` splits as word run, one whitespace, word run, one whitespace, a maximal digit run and
      any remainder: the shape the frame-label pattern accepts. */
  predicate Decomposes(text: string, m: LabelMatch) {
    && IsRun(m.layer, Word) && IsSpace(m.sep1)
    && IsRun(m.tag, Word) && IsSpace(m.sep2)
    && IsRun(m.digits, Digit) && (m.rest == [] || !IsDigit(m.rest[0]))
    && text == m.layer + [m.sep1] + (m.tag + [m.sep2] + (m.digits + m.rest))
  }

  /** A greedy word run followed by exactly one whitespace character: the run, the separator and
      what follows. */
  function WordThenSpace(s: string): (r: Option<(string, char, string)>)
    ensures r.Some? ==> IsRun(r.value.0, Word) && IsSpace(r.value.1) && s == r.value.0 + [r.value.1] + r.value.2
  {
    var n := Span(s, Word);
    if n == 0 || n == |s| || !IsSpace(s[n]) then None
    else
      assert s == s[..n] + [s[n]] + s[n + 1..];
      Some((s[..n], s[n], s[n + 1..]))
  }

  /** A greedy non-empty digit run and what follows it. */
  function DigitRun(s: string): (r: Option<(string, string)>)
    ensures r.Some? ==> IsRun(r.value.0, Digit) && (r.value.1 == [] || !IsDigit(r.value.1[0])) && s == r.value.0 + r.value.1
  {
    var n := Span(s, Digit);
    if n == 0 then None
    else
      assert s == s[..n] + s[n..];
      Some((s[..n], s[n..]))
  }

  /** The scanner: a word run and one whitespace character, twice, then a digit run. */
  function MatchLabel(text: string): (r: Option<LabelMatch>)
    ensures r.Some? ==> Decomposes(text, r.value)
  {
    match WordThenSpace(text)
    case None => None
    case Some((layer, sep1, tail1)) =>
      match WordThenSpace(tail1)
      case None => None
      case Some((tag, sep2, tail2)) =>
        match DigitRun(tail2)
        case None => None
        case Some((digits, rest)) =>
          Some(LabelMatch(layer, sep1, tag, sep2, digits, rest))
  }

  lemma {:induction false} SpanOfRun(r: string, t: string, k: CharClass)
    requires AllIn(r, k) && (t == [] || !InClass(t[0], k))
    ensures Span(r + t, k) == |r|
  {
    if r == [] {
      assert r + t == t;
    } else {
      assert (r + t)[0] == r[0];
      assert (r + t)[1..] == r[1..] + t;
      SpanOfRun(r[1..], t, k);
    }
  }

  /** A word run and a whitespace character are found as such, whatever follows. */
  lemma WordThenSpaceComplete(w: string, c: char, t: string)
    requires IsRun(w, Word) && IsSpace(c)
    ensures WordThenSpace(w + [c] + t) == Some((w, c, t))
  {
    var s := w + [c] + t;
    assert s == w + ([c] + t);
    SpanOfRun(w, [c] + t, Word);
    assert s[..|w|] == w && s[|w| + 1..] == t;
  }

  /** A maximal digit run is found as such. */
  lemma DigitRunComplete(d: string, rest: string)
    requires IsRun(d, Digit) && (rest == [] || !IsDigit(rest[0]))
    ensures DigitRun(d + rest) == Some((d, rest))
  {
    SpanOfRun(d, rest, Digit);
    assert (d + rest)[..|d|] == d && (d + rest)[|d|..] == rest;
  }

  /** Every decomposition is the one the scanner finds: the match is deterministic and complete. */
  lemma MatchLabelComplete(text: string, m: LabelMatch)
    requires Decomposes(text, m)
    ensures MatchLabel(text) == Some(m)
  {
    var tail2 := m.digits + m.rest;
    var tail1 := m.tag + [m.sep2] + tail2;
    WordThenSpaceComplete(m.layer, m.sep1, tail1);
    WordThenSpaceComplete(m.tag, m.sep2, tail2);
    DigitRunComplete(m.digits, m.rest);
  }

  /** A text is accepted with match `m` exactly when it decomposes as `m`. */
  lemma MatchLabelIff(text: string, m: LabelMatch)
    ensures MatchLabel(text) == Some(m) <==> Decomposes(text, m)
  {
    if Decomposes(text, m) {
      MatchLabelComplete(text, m);
    }
  }

  /** A text is rejected exactly when no decomposition of it exists. */
  lemma MatchLabelRejects(text: string)
    ensures MatchLabel(text) == None <==> forall m :: !Decomposes(text, m)
  {
    if m :| Decomposes(text, m) {
      MatchLabelComplete(text, m);
    }
  }

  function DigitValue(c: char): nat
    requires IsDigit(c)
  {
    c as int - '0' as int
  }

  function DigitChar(d: nat): (c: char)
    requires d < 10
    ensures IsDigit(c) && DigitValue(c) == d
  {
    ('0' as int + d) as char
  }

  /** `int(digits)` for a string of ASCII digits, read left to right; it is 0 exactly when every
      digit is '0'. */
  function DecimalValue(ds: string): (n: nat)
    requires AllIn(ds, Digit)
    ensures n == 0 <==> forall i :: 0 <= i < |ds| ==> ds[i] == '0'
  {
    if ds == [] then 0
    else
      var init := ds[..|ds| - 1];
      assert forall i :: 0 <= i < |init| ==> init[i] == ds[i];
      10 * DecimalValue(init) + DigitValue(ds[|ds| - 1])
  }

  /** Leading zeros do not change the index: labels ending "03" and "3" name the same frame. */
  lemma {:induction false} LeadingZero(ds: string)
    requires AllIn(ds, Digit)
    ensures AllIn(['0'] + ds, Digit) && DecimalValue(['0'] + ds) == DecimalValue(ds)
  {
    assert AllIn(['0'] + ds, Digit) by {
      forall i | 0 <= i < |['0'] + ds| ensures IsDigit((['0'] + ds)[i]) {
        if i > 0 { assert (['0'] + ds)[i] == ds[i - 1]; }
      }
    }
    if ds != [] {
      var init := ds[..|ds| - 1];
      assert (['0'] + ds)[..|ds|] == ['0'] + init;
      LeadingZero(init);
    }
  }

  /** The decimal rendering of an index, as the exporter writes it into a text. */
  function Decimal(n: nat): (s: string)
    ensures IsRun(s, Digit)
    decreases n
  {
    if n < 10 then [DigitChar(n)]
    else Decimal(n / 10) + [DigitChar(n % 10)]
  }

  lemma {:induction false} DecimalRoundTrip(n: nat)
    ensures DecimalValue(Decimal(n)) == n
    decreases n
  {
    if n >= 10 {
      var s := Decimal(n);
      assert s[..|s| - 1] == Decimal(n / 10);
      DecimalRoundTrip(n / 10);
    }
  }

  /** Where a text says a frame belongs: its layer, its tag and its index. */
  datatype FrameKey = FrameKey(layer: string, tag: string, index: nat)

  /** The key an accepted text stores its frame under; None for a text the pattern rejects. */
  function KeyOf(text: string): (r: Option<FrameKey>)
    ensures r.None? <==> forall m :: !Decomposes(text, m)
    ensures r.Some? ==> exists m :: Decomposes(text, m) && r.value == FrameKey(m.layer, m.tag, DecimalValue(m.digits))
  {
    MatchLabelRejects(text);
    match MatchLabel(text)
    case None => None
    case Some(m) => Some(FrameKey(m.layer, m.tag, DecimalValue(m.digits)))
  }

  /** A text built as "layer tag index" from word-run names reads back as that key. */
  lemma LabelRoundTrip(layer: string, tag: string, index: nat)
    requires IsRun(layer, Word) && IsRun(tag, Word)
    ensures KeyOf(layer + [' '] + tag + [' '] + Decimal(index)) == Some(FrameKey(layer, tag, index))
  {
    var m := LabelMatch(layer, ' ', tag, ' ', Decimal(index), []);
    assert layer + [' '] + tag + [' '] + Decimal(index) == m.layer + [m.sep1] + (m.tag + [m.sep2] + (m.digits + m.rest));
    MatchLabelComplete(layer + [' '] + tag + [' '] + Decimal(index), m);
    DecimalRoundTrip(index);
  }
}
