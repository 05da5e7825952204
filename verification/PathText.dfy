/** The text of an asset path, `[source://]path[#label]`: parsing and printing
    (crates/zlim-asset/src/path.rs). The delimiters are ASCII, so positions in characters serve as
    well as positions in bytes. */
module PathText {
  import opened Wrappers

  /** `tag` is the label, the name of an asset within the file. */
  datatype Parts = Parts(source: Option<string>, path: string, tag: Option<string>)

  datatype ParseError = InvalidPath | InvalidSource | InvalidLabel | MissingSource | MissingLabel

  /** A `://` starts at position `k`. */
  predicate DelimiterAt(s: string, k: nat) {
    k + 2 < |s| && s[k] == ':' && s[k + 1] == '/' && s[k + 2] == '/'
  }

  predicate HasDelimiter(s: string) {
    exists k: nat :: k < |s| && DelimiterAt(s, k)
  }

  /** `k` is where the first `://` starts. */
  predicate FirstDelimiter(s: string, k: nat) {
    DelimiterAt(s, k) && forall j: nat :: j < k ==> !DelimiterAt(s, j)
  }

  /** Where `c` is in `s` for the first time. */
  function Find(s: string, c: char): (k: Option<nat>)
    ensures k.None? ==> forall j :: 0 <= j < |s| ==> s[j] != c
    ensures k.Some? ==> k.value < |s| && s[k.value] == c && forall j :: 0 <= j < k.value ==> s[j] != c
  {
    if s == "" then None
    else
      var last := |s| - 1;
      var k := Find(s[..last], c);
      if k.Some? then k else if s[last] == c then Some(last) else None
  }

  /** Where `c` is in `s` for the last time. */
  function FindLast(s: string, c: char): (k: Option<nat>)
    ensures k.None? ==> forall j :: 0 <= j < |s| ==> s[j] != c
    ensures k.Some? ==> k.value < |s| && s[k.value] == c && forall j :: k.value < j < |s| ==> s[j] != c
  {
    if s == "" then None
    else if s[|s| - 1] == c then Some(|s| - 1)
    else FindLast(s[..|s| - 1], c)
  }

  /** Scans colon by colon for the first `://`. */
  method FindDelimiter(s: string) returns (r: Option<nat>)
    ensures r.Some? ==> FirstDelimiter(s, r.value)
    ensures r.None? ==> !HasDelimiter(s)
  {
    var buffer, offset := s, 0;
    while true
      invariant 0 <= offset <= |s| && buffer == s[offset..]
      invariant forall j: nat :: j < offset ==> !DelimiterAt(s, j)
      decreases |buffer|
    {
      var found := Find(buffer, ':');
      if found.None? {
        assert forall j: nat :: offset <= j < |s| ==> s[j] == buffer[j - offset];
        return None;
      }
      var index := found.value;
      assert forall j: nat :: offset <= j < offset + index ==> s[j] == buffer[j - offset];
      if index + 2 >= |buffer| {
        return None;
      }
      if buffer[index + 1] == '/' && buffer[index + 2] == '/' {
        return Some(index + offset);
      }
      buffer := buffer[index + 1..];
      offset := offset + index + 1;
    }
    r := None;
  }

  /** Where the path ends that starts at `start`: at the last `#`. */
  function PathEnd(s: string, start: nat): (end: nat)
    requires start <= |s|
    ensures start <= end <= |s| && (end < |s| ==> s[end] == '#')
    ensures forall j :: end < j < |s| ==> s[j] != '#'
    ensures end == |s| ==> forall j :: start <= j < |s| ==> s[j] != '#'
  {
    var hash := FindLast(s[start..], '#');
    assert forall j :: start <= j < |s| ==> s[j] == s[start..][j - start];
    if hash.Some? then start + hash.value else |s|
  }

  function PathStart(at: Option<nat>): nat {
    if at.Some? then at.value + 3 else 0
  }

  /** The pieces between which the delimiters lie; `at` is where the first `://` starts. */
  function Split(s: string, at: Option<nat>): Parts
    requires at.Some? ==> DelimiterAt(s, at.value)
  {
    SplitAt(s, at, PathEnd(s, PathStart(at)))
  }

  function SplitAt(s: string, at: Option<nat>, end: nat): Parts
    requires (at.Some? ==> DelimiterAt(s, at.value)) && PathStart(at) <= end <= |s|
  {
    Parts(if at.Some? then Some(s[..at.value]) else None,
          s[PathStart(at)..end],
          if end < |s| then Some(s[end + 1..]) else None)
  }

  /** The first complaint about the pieces, in the order in which they are examined. */
  function Complaint(p: Parts, checked: bool): Option<ParseError> {
    if checked && ('#' in p.path || HasDelimiter(p.path)) then Some(InvalidPath)
    else if p.source == Some("") then Some(MissingSource)
    else if checked && p.source.Some? && '#' in p.source.value then Some(InvalidSource)
    else if p.tag == Some("") then Some(MissingLabel)
    else if checked && p.tag.Some? && HasDelimiter(p.tag.value) then Some(InvalidLabel)
    else None
  }

  function Judged(p: Parts, checked: bool): Result<Parts, ParseError> {
    match Complaint(p, checked)
    case None => Success(p)
    case Some(e) => Failure(e)
  }

  /** What a text parses to. `checked` says whether the debug checks are compiled in. */
  ghost predicate Parses(s: string, checked: bool, r: Result<Parts, ParseError>) {
    if HasDelimiter(s) then exists k: nat :: FirstDelimiter(s, k) && r == Judged(Split(s, Some(k)), checked)
    else r == Judged(Split(s, None), checked)
  }

  /** The checks, of which some are only made with debug checks compiled in. */
  method Examine(p: Parts, checked: bool) returns (r: Result<Parts, ParseError>)
    ensures r == Judged(p, checked)
  {
    if checked {
      var inPath := FindDelimiter(p.path);
      if '#' in p.path || inPath.Some? {
        return Failure(InvalidPath);
      }
    }
    if p.source.Some? {
      if p.source.value == "" {
        return Failure(MissingSource);
      }
      if checked && '#' in p.source.value {
        return Failure(InvalidSource);
      }
    }
    if p.tag.Some? {
      if p.tag.value == "" {
        return Failure(MissingLabel);
      }
      if checked {
        var inTag := FindDelimiter(p.tag.value);
        if inTag.Some? {
          return Failure(InvalidLabel);
        }
      }
    }
    r := Success(p);
  }

  method ParseInternal(s: string, checked: bool) returns (r: Result<Parts, ParseError>)
    ensures Parses(s, checked, r)
  {
    var at := FindDelimiter(s);
    var start := if at.Some? then at.value + 3 else 0;
    var end, tag := PathEnd(s, start), None;
    if end < |s| {
      tag := Some(s[end + 1..]);
    }
    var source := if at.Some? then Some(s[..at.value]) else None;
    r := Examine(Parts(source, s[start..end], tag), checked);
    assert at.Some? ==> HasDelimiter(s);
  }

  // ------------------------------------------------------------------------------------------
  // Printing
  // ------------------------------------------------------------------------------------------

  function Prefix(p: Parts): string {
    if p.source.Some? then p.source.value + "://" else ""
  }

  function Suffix(p: Parts): string {
    if p.tag.Some? then "#" + p.tag.value else ""
  }

  function Print(p: Parts): string {
    Prefix(p) + (p.path + Suffix(p))
  }

  /** What a printed text starts with. */
  lemma PrintStart(p: Parts)
    ensures p.source.Some? && p.source.value != "" ==> Print(p) != "" && Print(p)[0] in p.source.value
    ensures p.source.None? && p.path != "" ==> Print(p) != "" && Print(p)[0] in p.path
    ensures p.source.None? && p.path == "" ==> Print(p) == Suffix(p)
  {
  }

  method Stringify(p: Parts) returns (buffer: string)
    ensures buffer == Print(p)
  {
    buffer := "";
    if p.source.Some? {
      buffer := buffer + p.source.value;
      buffer := buffer + "://";
    }
    buffer := buffer + p.path;
    if p.tag.Some? {
      buffer := buffer + "#";
      buffer := buffer + p.tag.value;
    }
  }

  // ------------------------------------------------------------------------------------------
  // Parsing and printing undo each other
  // ------------------------------------------------------------------------------------------

  lemma FirstOnce(s: string, j: nat, k: nat)
    requires FirstDelimiter(s, j) && FirstDelimiter(s, k)
    ensures j == k
  {
  }

  /** A text parses in one way. */
  lemma ParsesOnce(s: string, checked: bool, r: Result<Parts, ParseError>, r': Result<Parts, ParseError>)
    requires Parses(s, checked, r) && Parses(s, checked, r')
    ensures r == r'
  {
    if HasDelimiter(s) {
      var j: nat :| FirstDelimiter(s, j) && r == Judged(Split(s, Some(j)), checked);
      var k: nat :| FirstDelimiter(s, k) && r' == Judged(Split(s, Some(k)), checked);
      FirstOnce(s, j, k);
    }
  }

  lemma PrefixText(s: string, k: nat)
    requires DelimiterAt(s, k)
    ensures s[..k] + "://" == s[..k + 3]
  {
  }

  lemma SuffixText(s: string, end: nat)
    requires end < |s| && s[end] == '#'
    ensures "#" + s[end + 1..] == s[end..]
  {
  }

  lemma ThreePieces(s: string, start: nat, end: nat)
    requires start <= end <= |s|
    ensures s[..start] + (s[start..end] + s[end..]) == s
  {
  }

  lemma PrintSplit(s: string, at: Option<nat>, end: nat)
    requires (at.Some? ==> DelimiterAt(s, at.value)) && PathStart(at) <= end <= |s| && (end < |s| ==> s[end] == '#')
    ensures Print(SplitAt(s, at, end)) == s
  {
    if at.Some? {
      PrefixText(s, at.value);
    }
    if end < |s| {
      SuffixText(s, end);
    }
    ThreePieces(s, PathStart(at), end);
  }

  /** Printing an accepted text gives it back, with the debug checks or without. */
  lemma PrintUndoesParse(s: string, checked: bool, p: Parts)
    requires Parses(s, checked, Success(p))
    ensures Print(p) == s
  {
    if HasDelimiter(s) {
      var k: nat :| FirstDelimiter(s, k) && Success(p) == Judged(Split(s, Some(k)), checked);
      PrintSplit(s, Some(k), PathEnd(s, k + 3));
    } else {
      PrintSplit(s, None, PathEnd(s, 0));
    }
  }

  /** No piece holds a delimiter, and neither source nor label is empty. */
  predicate WellFormed(p: Parts) {
    && '#' !in p.path && !HasDelimiter(p.path)
    && (p.source.Some? ==> p.source.value != "" && '#' !in p.source.value && !HasDelimiter(p.source.value))
    && (p.tag.Some? ==> p.tag.value != "" && '#' !in p.tag.value && !HasDelimiter(p.tag.value))
  }

  lemma FirstAfterSource(source: string, rest: string)
    requires !HasDelimiter(source)
    ensures FirstDelimiter(source + "://" + rest, |source|)
  {
    var s := source + "://" + rest;
    forall j: nat | j < |source| ensures !DelimiterAt(s, j) {
      assert !DelimiterAt(source, j);
    }
  }

  lemma NoneAcross(a: string, b: string)
    requires !HasDelimiter(a) && !HasDelimiter(b)
    ensures !HasDelimiter(a + "#" + b)
  {
    var s := a + "#" + b;
    forall j: nat | j < |s| ensures !DelimiterAt(s, j) {
      assert j < |a| ==> !DelimiterAt(a, j);
      assert j > |a| ==> !DelimiterAt(b, j - |a| - 1);
    }
  }

  /** Where the path of a printed text ends. */
  lemma EndInPrint(p: Parts)
    requires '#' !in p.path && (p.tag.Some? ==> '#' !in p.tag.value)
    ensures PathEnd(Print(p), |Prefix(p)|) == |Prefix(p)| + |p.path|
  {
    var s, start, end := Print(p), |Prefix(p)|, |Prefix(p)| + |p.path|;
    Pieces(Prefix(p), p.path, Suffix(p));
    forall j | start <= j < end ensures s[j] != '#' {
      assert s[j] == s[start..end][j - start];
    }
    forall j | end < j < |s| ensures s[j] != '#' {
      assert s[j] == s[end..][j - end];
      assert p.tag.Some? && Suffix(p)[j - end] == p.tag.value[j - end - 1];
    }
    assert p.tag.Some? ==> s[end..][0] == '#';
  }

  lemma Pieces(a: string, b: string, c: string)
    ensures var s := a + (b + c);
      s[..|a|] == a && s[|a|..] == b + c && s[|a|..|a| + |b|] == b && s[|a| + |b|..] == c
  {
  }

  lemma SuffixBehind(s: string, p: Parts, end: nat)
    requires end <= |s| && s[end..] == Suffix(p)
    ensures p.tag == if end < |s| then Some(s[end + 1..]) else None
  {
    assert end < |s| ==> s[end + 1..] == s[end..][1..];
  }

  /** The text of `p`, which ends its source at `at`. */
  ghost predicate Prints(s: string, p: Parts, at: Option<nat>) {
    && s == Print(p) && at == (if p.source.Some? then Some(|p.source.value|) else None)
    && (at.Some? ==> DelimiterAt(s, at.value))
  }

  lemma SplitAtPrint(p: Parts, s: string, at: Option<nat>, end: nat)
    requires Prints(s, p, at) && end == |Prefix(p)| + |p.path|
    ensures PathStart(at) == |Prefix(p)| && end <= |s| && SplitAt(s, at, end) == p
  {
    Pieces(Prefix(p), p.path, Suffix(p));
    SuffixBehind(s, p, |Prefix(p)| + |p.path|);
    if p.source.Some? {
      assert s[..|p.source.value|] == Prefix(p)[..|p.source.value|] == p.source.value;
    }
  }

  lemma SplitPrint(p: Parts, s: string, at: Option<nat>)
    requires '#' !in p.path && (p.tag.Some? ==> '#' !in p.tag.value) && Prints(s, p, at)
    ensures Split(s, at) == p
  {
    var start, end := |Prefix(p)|, |Prefix(p)| + |p.path|;
    EndInPrint(p);
    SplitAtPrint(p, s, at, end);
    assert PathEnd(s, start) == end;
  }

  lemma NoComplaint(p: Parts)
    requires WellFormed(p)
    ensures Judged(p, true) == Success(p)
  {
  }

  /** What is known of a text decides what it parses to. */
  lemma ParsesTo(s: string, at: Option<nat>, p: Parts)
    requires if at.Some? then FirstDelimiter(s, at.value) else !HasDelimiter(s)
    requires Split(s, at) == p && Judged(p, true) == Success(p)
    ensures Parses(s, true, Success(p))
  {
    assert at.Some? ==> HasDelimiter(s);
  }

  lemma ParseUndoesPrint(p: Parts)
    requires WellFormed(p)
    ensures Parses(Print(p), true, Success(p))
  {
    var at := if p.source.Some? then Some(|p.source.value|) else None;
    if p.source.Some? {
      FirstAfterSource(p.source.value, p.path + Suffix(p));
    } else {
      NoDelimiterWithoutSource(p);
    }
    SplitPrint(p, Print(p), at);
    NoComplaint(p);
    ParsesTo(Print(p), at, p);
  }

  lemma NoDelimiterWithoutSource(p: Parts)
    requires WellFormed(p) && p.source.None?
    ensures !HasDelimiter(Print(p))
  {
    if p.tag.Some? {
      NoneAcross(p.path, p.tag.value);
      assert Print(p) == p.path + "#" + p.tag.value;
    } else {
      assert Print(p) == p.path;
    }
  }

  /** What `Split` cuts off holds no earlier `://` and no later `#`. */
  lemma SplitIsOutermost(s: string, at: Option<nat>)
    requires at.Some? ==> FirstDelimiter(s, at.value)
    ensures var p := Split(s, at);
      (p.source.Some? ==> !HasDelimiter(p.source.value)) && (p.tag.Some? ==> '#' !in p.tag.value)
  {
    if at.Some? {
      forall j: nat | j < at.value ensures !DelimiterAt(s[..at.value], j) {
        assert !DelimiterAt(s, j);
      }
    }
  }

  /** What any accepted text is known to split into. */
  lemma AcceptedPieces(s: string, checked: bool, p: Parts)
    requires Parses(s, checked, Success(p))
    ensures p.source.Some? <==> HasDelimiter(s)
    ensures p.tag.Some? ==> p.tag.value != "" && '#' !in p.tag.value
  {
    if HasDelimiter(s) {
      var k: nat :| FirstDelimiter(s, k) && Success(p) == Judged(Split(s, Some(k)), checked);
      SplitIsOutermost(s, Some(k));
    } else {
      SplitIsOutermost(s, None);
    }
  }

  lemma AcceptedIsWellFormed(s: string, p: Parts)
    requires Parses(s, true, Success(p))
    ensures WellFormed(p)
  {
    if HasDelimiter(s) {
      var k: nat :| FirstDelimiter(s, k) && Success(p) == Judged(Split(s, Some(k)), true);
      SplitIsOutermost(s, Some(k));
    } else {
      SplitIsOutermost(s, None);
    }
  }

  /** With the debug checks, exactly the well-formed pieces survive printing and parsing. */
  lemma RoundTripExactly(p: Parts)
    ensures Parses(Print(p), true, Success(p)) <==> WellFormed(p)
  {
    if WellFormed(p) {
      ParseUndoesPrint(p);
    }
    if Parses(Print(p), true, Success(p)) {
      AcceptedIsWellFormed(Print(p), p);
    }
  }

  /** The language that is accepted then: what well-formed pieces print to. */
  lemma AcceptedExactly(s: string)
    ensures (exists p :: Parses(s, true, Success(p))) <==> (exists p :: WellFormed(p) && Print(p) == s)
  {
    if p :| Parses(s, true, Success(p)) {
      AcceptedIsWellFormed(s, p);
      PrintUndoesParse(s, true, p);
    }
    if p :| WellFormed(p) && Print(p) == s {
      ParseUndoesPrint(p);
    }
  }

  /** The debug checks only reject: what passes them parses the same without. */
  lemma ChecksOnlyReject(s: string, p: Parts)
    requires Parses(s, true, Success(p))
    ensures Parses(s, false, Success(p))
  {
    if HasDelimiter(s) {
      var k: nat :| FirstDelimiter(s, k) && Success(p) == Judged(Split(s, Some(k)), true);
      assert Success(p) == Judged(Split(s, Some(k)), false);
    }
  }

  // ------------------------------------------------------------------------------------------
  // What a text gives
  // ------------------------------------------------------------------------------------------

  /** The outermost pieces: what lies before the first `://`, behind the last `#`, and between. */
  ghost predicate Outermost(s: string, p: Parts) {
    && Print(p) == s
    && (if p.source.Some? then FirstDelimiter(s, |p.source.value|) else !HasDelimiter(s))
    && (if p.tag.Some? then NoHash(p.tag.value) else NoHash(p.path))
  }

  predicate NoHash(s: string) {
    forall k :: 0 <= k < |s| ==> s[k] != '#'
  }

  lemma SplitOutermost(s: string, at: Option<nat>)
    requires if at.Some? then FirstDelimiter(s, at.value) else !HasDelimiter(s)
    ensures Outermost(s, Split(s, at))
  {
    PrintSplit(s, at, PathEnd(s, PathStart(at)));
    SplitIsOutermost(s, at);
  }

  lemma SameTail(path: string, tag: Option<string>, path': string, tag': Option<string>)
    requires path + Suffix(Parts(None, path, tag)) == path' + Suffix(Parts(None, path', tag'))
    requires if tag.Some? then NoHash(tag.value) else NoHash(path)
    requires if tag'.Some? then NoHash(tag'.value) else NoHash(path')
    ensures |path| <= |path'|
  {
    var s := path + Suffix(Parts(None, path, tag));
    assert tag.Some? ==> s[|path|] == '#';
    assert tag'.Some? ==> s[|path'|] == '#';
    assert tag'.Some? ==> forall k :: |path'| < k < |s| ==> s[k] == tag'.value[k - |path'| - 1];
  }

  lemma SamePieces(p: Parts, q: Parts)
    requires Print(p) == Print(q) && |Prefix(p)| == |Prefix(q)| && |p.path| == |q.path|
    ensures p.path == q.path && Prefix(p) == Prefix(q) && Suffix(p) == Suffix(q)
  {
    Pieces(Prefix(p), p.path, Suffix(p));
    Pieces(Prefix(q), q.path, Suffix(q));
  }

  lemma PiecesOfTexts(p: Parts, q: Parts)
    requires Prefix(p) == Prefix(q) && p.path == q.path && Suffix(p) == Suffix(q)
    ensures p == q
  {
    if p.source.Some? && q.source.Some? {
      var n := |p.source.value|;
      assert Prefix(p)[..n] == p.source.value && Prefix(q)[..n] == q.source.value;
    }
    if p.tag.Some? && q.tag.Some? {
      assert Suffix(p)[1..] == p.tag.value && Suffix(q)[1..] == q.tag.value;
    }
  }

  lemma OutermostOnce(s: string, p: Parts, q: Parts)
    requires Outermost(s, p) && Outermost(s, q)
    ensures p == q
  {
    if p.source.Some? {
      assert HasDelimiter(s);
      FirstOnce(s, |p.source.value|, |q.source.value|);
    }
    Pieces(Prefix(p), p.path, Suffix(p));
    Pieces(Prefix(q), q.path, Suffix(q));
    assert p.path + Suffix(p) == s[|Prefix(p)|..] == q.path + Suffix(q);
    SameTail(p.path, p.tag, q.path, q.tag);
    SameTail(q.path, q.tag, p.path, p.tag);
    SamePieces(p, q);
    PiecesOfTexts(p, q);
  }

  /** Every text has outermost pieces; `OutermostOnce` says there is one way to cut it. */
  lemma OutermostPieces(s: string) returns (p: Parts)
    ensures Outermost(s, p)
  {
    if HasDelimiter(s) {
      var k := TheFirst(s);
      SplitOutermost(s, Some(k));
      p := Split(s, Some(k));
    } else {
      SplitOutermost(s, None);
      p := Split(s, None);
    }
  }

  lemma TheFirst(s: string) returns (k: nat)
    requires HasDelimiter(s)
    ensures FirstDelimiter(s, k)
  {
    k := 0;
    while !DelimiterAt(s, k)
      invariant k <= |s| && forall j: nat :: j < k ==> !DelimiterAt(s, j)
      decreases |s| - k
    {
      k := k + 1;
    }
  }

  /** What is wrong with the pieces; three of the faults are only looked for with the debug checks. */
  predicate Fault(p: Parts, checked: bool, e: ParseError) {
    match e
    case InvalidPath => checked && ('#' in p.path || HasDelimiter(p.path))
    case MissingSource => p.source == Some("")
    case InvalidSource => checked && p.source.Some? && '#' in p.source.value
    case MissingLabel => p.tag == Some("")
    case InvalidLabel => checked && p.tag.Some? && HasDelimiter(p.tag.value)
  }

  /** The pieces are examined from the path over the source to the label. */
  function Rank(e: ParseError): nat {
    match e
    case InvalidPath => 0
    case MissingSource => 1
    case InvalidSource => 2
    case MissingLabel => 3
    case InvalidLabel => 4
  }

  ghost predicate FirstFault(p: Parts, checked: bool, e: ParseError) {
    Fault(p, checked, e) && forall e' :: Rank(e') < Rank(e) ==> !Fault(p, checked, e')
  }

  lemma FirstFaultOnce(p: Parts, checked: bool, e: ParseError, e': ParseError)
    requires FirstFault(p, checked, e) && FirstFault(p, checked, e')
    ensures e == e'
  {
  }

  lemma ComplaintIsFirst(p: Parts, checked: bool)
    ensures match Complaint(p, checked)
            case None => forall e :: !Fault(p, checked, e)
            case Some(e) => FirstFault(p, checked, e)
  {
  }

  lemma JudgedExactly(p: Parts, checked: bool, r: Result<Parts, ParseError>)
    ensures r == Judged(p, checked) <==>
      match r
      case Success(q) => q == p && forall e :: !Fault(p, checked, e)
      case Failure(e) => FirstFault(p, checked, e)
  {
    ComplaintIsFirst(p, checked);
    if r.Failure? && FirstFault(p, checked, r.error) && Complaint(p, checked).Some? {
      FirstFaultOnce(p, checked, r.error, Complaint(p, checked).value);
    }
  }

  /** A text parses to its outermost pieces, unless something is wrong with them; then to the first error. */
  lemma ParsesExactly(s: string, p: Parts, checked: bool, r: Result<Parts, ParseError>)
    requires Outermost(s, p)
    ensures Parses(s, checked, r) <==>
      match r
      case Success(q) => q == p && forall e :: !Fault(p, checked, e)
      case Failure(e) => FirstFault(p, checked, e)
  {
    var at := if p.source.Some? then Some(|p.source.value|) else None;
    assert p.source.Some? ==> HasDelimiter(s);
    SplitOutermost(s, at);
    OutermostOnce(s, p, Split(s, at));
    JudgedExactly(p, checked, r);
    ParsesByFirst(s, at, checked, r);
  }

  lemma ParsesByFirst(s: string, at: Option<nat>, checked: bool, r: Result<Parts, ParseError>)
    requires if at.Some? then FirstDelimiter(s, at.value) else !HasDelimiter(s)
    ensures Parses(s, checked, r) <==> r == Judged(Split(s, at), checked)
  {
    if at.Some? {
      assert HasDelimiter(s);
      forall k: nat | FirstDelimiter(s, k) ensures k == at.value {
        FirstOnce(s, k, at.value);
      }
    }
  }

  lemma UncheckedFaults(p: Parts)
    ensures (forall e :: !Fault(p, false, e)) <==> p.source != Some("") && p.tag != Some("")
  {
    assert Fault(p, false, MissingSource) <==> p.source == Some("");
    assert Fault(p, false, MissingLabel) <==> p.tag == Some("");
  }

  lemma AcceptedPiecesAlone(s: string, p: Parts, checked: bool)
    requires Outermost(s, p)
    ensures (exists q :: Parses(s, checked, Success(q))) <==> forall e :: !Fault(p, checked, e)
  {
    ParsesExactly(s, p, checked, Success(p));
    forall q | Parses(s, checked, Success(q)) ensures q == p {
      ParsesExactly(s, p, checked, Success(q));
    }
  }

  /** Without the debug checks, exactly the texts are accepted that neither start with `://` nor end with
      `#`. */
  lemma UncheckedExactly(s: string)
    ensures (exists p :: Parses(s, false, Success(p))) <==> !DelimiterAt(s, 0) && (s == "" || s[|s| - 1] != '#')
  {
    var p := OutermostPieces(s);
    AcceptedPiecesAlone(s, p, false);
    UncheckedFaults(p);
    EmptyPieces(s, p);
  }

  lemma EmptyPieces(s: string, p: Parts)
    requires Outermost(s, p)
    ensures p.source == Some("") <==> DelimiterAt(s, 0)
    ensures p.tag == Some("") <==> s != "" && s[|s| - 1] == '#'
  {
    assert DelimiterAt(s, 0) ==> HasDelimiter(s);
    if s != "" {
      LastOfPrint(p);
    }
  }

  lemma LastOfPrint(p: Parts)
    requires Print(p) != "" && if p.tag.Some? then NoHash(p.tag.value) else NoHash(p.path)
    ensures Print(p)[|Print(p)| - 1] == '#' <==> p.tag == Some("")
  {
    var s := Print(p);
    if p.tag.Some? {
      assert s == Prefix(p) + p.path + Suffix(p);
      assert s[|s| - 1] == Suffix(p)[|p.tag.value|];
    } else if p.path != "" {
      assert s[|s| - 1] == p.path[|p.path| - 1];
    }
  }
}
