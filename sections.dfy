/** Cutting an audit log into sections at its header lines (split_into_sections). */
module Sections {
  import opened Text
  import opened OrderedDict

  /** The number of alternatives in the header pattern. */
  const HeaderCount := 10

  /** The k-th alternative of the header pattern, in order. The pattern is
      compiled with re.VERBOSE, which drops the one unescaped space (in the first
      alternative), so a banner line counts only when it starts "AuditReport". */
  function HeaderPrefix(k: nat): (p: string)
    requires k < HeaderCount
    ensures |p| > 0 && 'A' <= p[0] <= 'Z'
  {
    match k
    case 0 => "AuditReport"
    case 1 => "Report of all logins"
    case 2 => "Login summary"
    case 3 => "All successful logins"
    case 4 => "Report of all content"
    case 5 => "Report Total KB"
    case 6 => "No items found"
    case 7 => "SPU Summary"
    case 8 => "SPU Statistics Summary"
    case _ => "Method Summary"
  }

  /** The one alternative without a trailing `.*`: only these 14 characters form
      the header, and the rest of its line starts the body. */
  function NoItemsFound(): string { HeaderPrefix(6) }

  /** The key under which text before the first header is kept. */
  function PreambleKey(): string { "(pre-file text)" }

  /** A line at which the header pattern matches (it is anchored at line starts). */
  predicate IsHeaderLine(line: string) {
    HeaderFrom(line, 0)
  }

  /** The line starts with one of the alternatives k, k + 1, ... */
  predicate HeaderFrom(line: string, k: nat)
    decreases HeaderCount - k
  {
    k < HeaderCount && (StartsWith(line, HeaderPrefix(k)) || HeaderFrom(line, k + 1))
  }

  lemma {:induction false} HeaderFromOne(line: string, k: nat, m: nat)
    requires k <= m < HeaderCount && StartsWith(line, HeaderPrefix(m))
    ensures HeaderFrom(line, k)
    decreases m - k
  {
    if k < m {
      HeaderFromOne(line, k + 1, m);
    }
  }

  /** A header line starts with a capital letter. */
  lemma {:induction false} HeaderFromCapital(line: string, k: nat)
    requires HeaderFrom(line, k)
    ensures |line| > 0 && 'A' <= line[0] <= 'Z'
    decreases HeaderCount - k
  {
    if !StartsWith(line, HeaderPrefix(k)) {
      HeaderFromCapital(line, k + 1);
    }
  }

  /** The length of what the header pattern matches at the start of a line, or 0
      where it does not match. Every alternative but "No items found" ends in `.*`
      and takes the whole line. */
  function HeaderLength(line: string): (n: nat)
    ensures n <= |line|
    ensures n > 0 <==> IsHeaderLine(line)
    ensures n > 0 ==> 'A' <= line[0] <= 'Z' && IsHeaderLine(line[..n])
    ensures 0 < n < |line| ==> line[..n] == NoItemsFound()
    ensures StartsWith(line, NoItemsFound()) ==> n == |NoItemsFound()|
    ensures IsHeaderLine(line) && !StartsWith(line, NoItemsFound()) ==> n == |line|
  {
    if StartsWith(line, NoItemsFound()) then
      HeaderFromOne(line, 0, 6);
      HeaderFromCapital(line, 0);
      assert line[..|NoItemsFound()|] == NoItemsFound();
      HeaderFromOne(NoItemsFound(), 0, 6);
      |NoItemsFound()|
    else if !IsHeaderLine(line) then 0
    else
      HeaderFromCapital(line, 0);
      assert line[..|line|] == line;
      |line|
  }

  /** The header length of each line. */
  function HeaderLengths(lines: seq<string>): (cuts: seq<nat>)
    ensures Cuts(lines, cuts)
    ensures forall i :: 0 <= i < |lines| ==> cuts[i] == HeaderLength(lines[i])
  {
    seq(|lines|, i requires 0 <= i < |lines| => HeaderLength(lines[i]))
  }

  /** cuts gives, for each line, where its header ends (0: no header), and every
      header starts with a capital letter. */
  predicate Cuts(lines: seq<string>, cuts: seq<nat>) {
    && |cuts| == |lines|
    && forall i :: 0 <= i < |lines| ==>
         cuts[i] <= |lines[i]| && (cuts[i] > 0 ==> 'A' <= lines[i][0] <= 'Z')
  }

  /** The list re.split(header_pattern, text) returns, [preamble, header1, body1,
      header2, body2, ...], with each header kept together with the text after it. */
  datatype Split = Split(preamble: string, pairs: seq<(string, string)>)

  /** The list itself. */
  function Flatten(s: Split): (parts: seq<string>)
    ensures |parts| == 2 * |s.pairs| + 1
    ensures parts[0] == s.preamble
    ensures forall k :: 0 <= k < |s.pairs| ==> parts[2 * k + 1] == s.pairs[k].0 && parts[2 * k + 2] == s.pairs[k].1
    decreases |s.pairs|
  {
    if s.pairs == [] then [s.preamble]
    else
      var init := Split(s.preamble, s.pairs[..|s.pairs| - 1]);
      var last := s.pairs[|s.pairs| - 1];
      Flatten(init) + [last.0, last.1]
  }

  /** re.split over one line whose header ends at cut (0: no header). */
  function LineSplit(line: string, cut: nat): Split
    requires cut <= |line|
  {
    if cut > 0 then Split([], [(line[..cut], line[cut..])]) else Split(line, [])
  }

  /** re.split over a line whose header ends at cut, then '\n', then text that
      splits into tail: a header line opens a new pair whose body runs on into the
      tail's preamble; any other line joins that preamble. */
  function Prepend(line: string, cut: nat, tail: Split): Split
    requires cut <= |line|
  {
    if cut > 0 then Split([], [(line[..cut], line[cut..] + "\n" + tail.preamble)] + tail.pairs)
    else Split(line + "\n" + tail.preamble, tail.pairs)
  }

  /** re.split over the given lines of the text, whose headers end where cuts
      says. A match never crosses a '\n', so the lines can be taken one at a time. */
  function LinesSplit(lines: seq<string>, cuts: seq<nat>): (s: Split)
    requires |lines| > 0 && Cuts(lines, cuts)
    ensures forall k :: 0 <= k < |s.pairs| ==> |s.pairs[k].0| > 0 && 'A' <= s.pairs[k].0[0] <= 'Z'
    decreases |lines|
  {
    if |lines| == 1 then LineSplit(lines[0], cuts[0])
    else Prepend(lines[0], cuts[0], LinesSplit(lines[1..], cuts[1..]))
  }

  /** re.split(header_pattern, text). */
  function TextSplit(text: string): Split {
    var lines := SplitLines(text);
    LinesSplit(lines, HeaderLengths(lines))
  }

  /** "".join of the list re.split returns. */
  function Concat(s: Split): string {
    s.preamble + ConcatPairs(s.pairs)
  }

  function ConcatPairs(pairs: seq<(string, string)>): string {
    if pairs == [] then [] else pairs[0].0 + pairs[0].1 + ConcatPairs(pairs[1..])
  }

  lemma ConcatPairsCons(h: string, b: string, pairs: seq<(string, string)>)
    ensures ConcatPairs([(h, b)] + pairs) == h + b + ConcatPairs(pairs)
  {
    assert ([(h, b)] + pairs)[1..] == pairs;
  }

  lemma LineSplitConcat(line: string, cut: nat)
    requires cut <= |line|
    ensures Concat(LineSplit(line, cut)) == line
  {
    var (h, r) := (line[..cut], line[cut..]);
    if cut > 0 {
      ConcatPairsCons(h, r, []);
      assert [(h, r)] + [] == [(h, r)];
      assert [] + (h + r + []) == line;
    } else {
      assert line + [] == line;
    }
  }

  lemma PrependConcat(line: string, cut: nat, tail: Split)
    requires cut <= |line|
    ensures Concat(Prepend(line, cut, tail)) == line + "\n" + Concat(tail)
  {
    var (h, r) := (line[..cut], line[cut..]);
    var rest := ConcatPairs(tail.pairs);
    if cut > 0 {
      ConcatPairsCons(h, r + "\n" + tail.preamble, tail.pairs);
      assert [] + (h + (r + "\n" + tail.preamble) + rest) == (h + r) + "\n" + (tail.preamble + rest);
      assert h + r == line;
    } else {
      assert line + "\n" + tail.preamble + rest == line + "\n" + (tail.preamble + rest);
    }
  }

  /** Splitting loses nothing: the pieces put back together are the lines joined. */
  lemma {:induction false} LinesSplitConcat(lines: seq<string>, cuts: seq<nat>)
    requires |lines| > 0 && Cuts(lines, cuts)
    ensures Concat(LinesSplit(lines, cuts)) == JoinLines(lines)
    decreases |lines|
  {
    if |lines| == 1 {
      LineSplitConcat(lines[0], cuts[0]);
    } else {
      LinesSplitConcat(lines[1..], cuts[1..]);
      PrependConcat(lines[0], cuts[0], LinesSplit(lines[1..], cuts[1..]));
    }
  }

  /** re.split loses no text: the pieces put back together are the text. */
  lemma SplitLosesNothing(text: string)
    ensures Concat(TextSplit(text)) == text
  {
    var lines := SplitLines(text);
    LinesSplitConcat(lines, HeaderLengths(lines));
    JoinSplitLines(text);
  }

  /** What the loop of split_into_sections assigns, in order: each stripped
      header with its stripped body. */
  function Entries(pairs: seq<(string, string)>): (entries: seq<(string, string)>)
    ensures |entries| == |pairs|
    ensures forall k :: 0 <= k < |pairs| ==> entries[k] == (Strip(pairs[k].0), Strip(pairs[k].1))
  {
    seq(|pairs|, k requires 0 <= k < |pairs| => (Strip(pairs[k].0), Strip(pairs[k].1)))
  }

  /** The stripped headers, in order. */
  function HeaderKeys(pairs: seq<(string, string)>): (keys: seq<string>)
    ensures |keys| == |pairs|
    ensures forall k :: 0 <= k < |pairs| ==> keys[k] == Strip(pairs[k].0)
  {
    Keys(Entries(pairs))
  }

  /** The stripped header of each line that has one, in order. */
  function HeaderLineKeys(lines: seq<string>, cuts: seq<nat>): seq<string>
    requires Cuts(lines, cuts)
    decreases |lines|
  {
    if lines == [] then []
    else
      (if cuts[0] > 0 then [Strip(lines[0][..cuts[0]])] else [])
      + HeaderLineKeys(lines[1..], cuts[1..])
  }

  lemma HeaderKeysCons(p: (string, string), pairs: seq<(string, string)>)
    ensures HeaderKeys([p] + pairs) == [Strip(p.0)] + HeaderKeys(pairs)
  {
    assert HeaderKeys([p] + pairs)[1..] == HeaderKeys(pairs);
  }

  /** Every header line, and nothing else, opens a section, in the order of the
      lines. */
  lemma {:induction false} HeadersInOrder(lines: seq<string>, cuts: seq<nat>)
    requires |lines| > 0 && Cuts(lines, cuts)
    ensures HeaderKeys(LinesSplit(lines, cuts).pairs) == HeaderLineKeys(lines, cuts)
    decreases |lines|
  {
    var line, cut := lines[0], cuts[0];
    if |lines| == 1 {
      assert HeaderLineKeys(lines[1..], cuts[1..]) == [];
      if cut > 0 {
        HeaderKeysCons((line[..cut], line[cut..]), []);
      }
    } else {
      var tail := LinesSplit(lines[1..], cuts[1..]);
      HeadersInOrder(lines[1..], cuts[1..]);
      if cut > 0 {
        HeaderKeysCons((line[..cut], line[cut..] + "\n" + tail.preamble), tail.pairs);
      }
    }
  }

  /** Text without any header line is not split at all. */
  lemma {:induction false} NoHeaderNoSplit(lines: seq<string>, cuts: seq<nat>)
    requires |lines| > 0 && Cuts(lines, cuts)
    requires forall i :: 0 <= i < |cuts| ==> cuts[i] == 0
    ensures LinesSplit(lines, cuts) == Split(JoinLines(lines), [])
    decreases |lines|
  {
    if |lines| > 1 {
      NoHeaderNoSplit(lines[1..], cuts[1..]);
    }
  }

  /** A header never collides with the preamble key. */
  lemma HeaderNotPreambleKey(h: string)
    requires |h| > 0 && 'A' <= h[0] <= 'Z'
    ensures Strip(h) != PreambleKey()
  {
    StripKeepsFirst(h);
  }

  /** The keys present before any header: the preamble key when the preamble
      is not blank. */
  function PreambleKeys(s: Split): seq<string> {
    if IsBlank(s.preamble) then [] else [PreambleKey()]
  }

  /** The sections collected from the preamble and the first n pairs: the
      dict that assigning their entries in order to the preamble's dict gives
      (see FilledFrom), with the preamble's entry first when it is not blank. */
  predicate SectionsOf(s: Split, n: nat, sections: seq<(string, string)>)
    requires n <= |s.pairs|
  {
    && FilledFrom(sections, PreambleKeys(s), Entries(s.pairs), n)
    && (!IsBlank(s.preamble) ==> sections[0] == (PreambleKey(), Strip(s.preamble)))
  }

  /** No line of the text is a header line. */
  predicate NoHeaderLines(text: string) {
    forall i :: 0 <= i < |SplitLines(text)| ==> !IsHeaderLine(SplitLines(text)[i])
  }

  /** split_into_sections: the ordered map from each stripped header to the
      stripped text after it, with any non-blank preamble first. Keys are in the
      order of first appearance; a repeated header keeps its first position and
      takes the body after its last appearance. */
  method SplitIntoSections(text: string) returns (sections: seq<(string, string)>)
    ensures SectionsOf(TextSplit(text), |TextSplit(text).pairs|, sections)
    ensures NoHeaderLines(text) ==>
              sections == (if IsBlank(text) then [] else [(PreambleKey(), Strip(text))])
  {
    var s := TextSplit(text);
    sections := [];
    var preamble := Strip(s.preamble);
    if preamble != [] {
      sections := Assign(sections, PreambleKey(), preamble);
    }
    SectionsStart(s, sections);
    var k := 0;
    while k < |s.pairs|
      invariant k <= |s.pairs|
      invariant SectionsOf(s, k, sections)
    {
      var header := Strip(s.pairs[k].0);
      var content := Strip(s.pairs[k].1);
      SectionStep(s, k, sections);
      sections := Assign(sections, header, content);
      k := k + 1;
    }
    if NoHeaderLines(text) {
      NoHeaderSections(text, sections);
    }
  }

  /** Before the loop: only the preamble's entry, if any. */
  lemma SectionsStart(s: Split, sections: seq<(string, string)>)
    requires sections == if Strip(s.preamble) == [] then [] else Assign([], PreambleKey(), Strip(s.preamble))
    ensures SectionsOf(s, 0, sections)
  {
    if Strip(s.preamble) != [] {
      AssignOne(PreambleKey(), Strip(s.preamble));
    }
    FilledStart(sections, Entries(s.pairs));
  }

  /** Text without header lines gives at most the preamble's entry. */
  lemma NoHeaderSections(text: string, sections: seq<(string, string)>)
    requires NoHeaderLines(text)
    requires SectionsOf(TextSplit(text), |TextSplit(text).pairs|, sections)
    ensures sections == if IsBlank(text) then [] else [(PreambleKey(), Strip(text))]
  {
    var lines := SplitLines(text);
    NoHeaderNoSplit(lines, HeaderLengths(lines));
    JoinSplitLines(text);
    var s := TextSplit(text);
    assert s == Split(text, []);
    assert Keys(Entries(s.pairs)[..0]) == [];
    assert |Keys(sections)| == |sections|;
  }

  /** One turn of the loop in SplitIntoSections keeps its invariant. */
  lemma SectionStep(s: Split, k: nat, sections: seq<(string, string)>)
    requires k < |s.pairs| && SectionsOf(s, k, sections)
    requires |s.pairs[k].0| > 0 && 'A' <= s.pairs[k].0[0] <= 'Z'
    ensures SectionsOf(s, k + 1, Assign(sections, Strip(s.pairs[k].0), Strip(s.pairs[k].1)))
  {
    HeaderNotPreambleKey(s.pairs[k].0);
    AssignNext(sections, PreambleKeys(s), Entries(s.pairs), k);
  }
}
