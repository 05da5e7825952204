/** Resolving one asset path against another: `resolve`, `resolve_embed` and their `_str` forms of
    crates/zlim-asset/src/path.rs. */
module PathResolve {
  import opened Wrappers
  import opened PathText
  import opened PathComponents

  /** A resolved asset path. Paths are compared by their components, so those are what is kept. */
  datatype Resolved = Resolved(source: Option<string>, path: Path, tag: Option<string>)

  function Own(base: Parts): Resolved {
    Resolved(base.source, Components(base.path), base.tag)
  }

  /** `PathBuf::pop`: without the last component, which never is the root. */
  function Popped(p: Path): Path {
    if p == [] || p[|p| - 1] == RootDir then p else p[..|p| - 1]
  }

  /** Not marked as a directory by a last slash. */
  predicate DropsName(s: string) {
    s == "" || s[|s| - 1] != '/'
  }

  /** The path to resolve against: an embedded resolution drops the file name, unless the text ends
      with a slash. */
  function BasePath(base: Parts, embed: bool): Path {
    if embed && DropsName(base.path) then Popped(Components(base.path))
    else Components(base.path)
  }

  /** Without a leading `/`. */
  function Unrooted(p: Path): Path {
    if IsRelative(p) then p else p[1..]
  }

  function Combined(base: Parts, embed: bool, part: Parts): Path {
    var path := Components(part.path);
    var from: Path := if IsRelative(path) && part.source.None? then BasePath(base, embed) else [];
    Push(from, Unrooted(path))
  }

  function Tidied(p: Path): Path {
    if ParentDir in p then Normalized(p) else p
  }

  /** What the parts of a path resolve to. */
  function FromParts(base: Parts, embed: bool, part: Parts): Resolved {
    Resolved(if part.source.Some? then part.source else base.source, Tidied(Combined(base, embed, part)), part.tag)
  }

  method ResolveFromParts(base: Parts, embed: bool, part: Parts) returns (r: Resolved)
    ensures r == FromParts(base, embed, part)
  {
    var basePath := Components(base.path);
    if embed {
      if base.path == "" || base.path[|base.path| - 1] != '/' {
        basePath := Popped(basePath);
      }
    }
    var rpath, absolute := Components(part.path), false;
    if rpath != [] && rpath[0] == RootDir {
      rpath, absolute := rpath[1..], true;
    }
    var result: Path := [];
    if !absolute && part.source.None? {
      result := basePath;
    }
    result := Push(result, rpath);
    if ParentDir in result {
      result := NormalizePath(result);
    }
    r := Resolved(if part.source.Some? then part.source else base.source, result, part.tag);
  }

  predicate LabelOnly(part: Parts) {
    part.source.None? && part.path == "" && part.tag.Some?
  }

  /** Resolving a parsed path. */
  function ResolveParts(base: Parts, embed: bool, part: Parts): Resolved {
    if LabelOnly(part) then Own(base).(tag := part.tag) else FromParts(base, embed, part)
  }

  method Resolve(base: Parts, embed: bool, part: Parts) returns (r: Resolved)
    ensures r == ResolveParts(base, embed, part)
  {
    if part.source.None? && part.path == "" && part.tag.Some? {
      r := Own(base).(tag := part.tag);
    } else {
      r := ResolveFromParts(base, embed, part);
    }
  }

  predicate HashFirst(s: string) {
    s != "" && s[0] == '#'
  }

  /** What becomes of a parse result; the direct route does not look for label-only paths again. */
  function Outcome(base: Parts, embed: bool, parsed: Result<Parts, ParseError>,
                   direct: bool): Result<Resolved, ParseError> {
    match parsed
    case Success(part) => Success(if direct then FromParts(base, embed, part) else ResolveParts(base, embed, part))
    case Failure(e) => Failure(e)
  }

  /** What resolving a text directly gives: a text that starts with `#` is all label, unparsed. */
  ghost predicate ResolvesDirectly(base: Parts, embed: bool, s: string, checked: bool,
                                   r: Result<Resolved, ParseError>) {
    if HashFirst(s) then r == Success(Own(base).(tag := Some(s[1..])))
    else exists parsed :: Parses(s, checked, parsed) && r == Outcome(base, embed, parsed, true)
  }

  /** What parsing the text first and resolving the result gives. */
  ghost predicate ResolvesParsed(base: Parts, embed: bool, s: string, checked: bool, r: Result<Resolved, ParseError>) {
    exists parsed :: Parses(s, checked, parsed) && r == Outcome(base, embed, parsed, false)
  }

  method ResolveStr(base: Parts, embed: bool, s: string, checked: bool) returns (r: Result<Resolved, ParseError>)
    ensures ResolvesDirectly(base, embed, s, checked, r)
  {
    if s != "" && s[0] == '#' {
      return Success(Own(base).(tag := Some(s[1..])));
    }
    var parsed := ParseInternal(s, checked);
    match parsed
    case Failure(e) =>
      r := Failure(e);
    case Success(part) =>
      var resolved := ResolveFromParts(base, embed, part);
      r := Success(resolved);
  }

  // ------------------------------------------------------------------------------------------
  // Two routes
  // ------------------------------------------------------------------------------------------

  /** The whole text is one label. */
  predicate PureLabel(s: string) {
    |s| > 1 && s[0] == '#' && '#' !in s[1..] && !HasDelimiter(s)
  }

  lemma PureLabelParses(s: string, checked: bool)
    requires PureLabel(s)
    ensures Parses(s, checked, Success(Parts(None, "", Some(s[1..]))))
  {
    var p := Parts(None, "", Some(s[1..]));
    forall k: nat | k < |s[1..]| ensures !DelimiterAt(s[1..], k) {
      assert !DelimiterAt(s, k + 1);
    }
    assert Print(p) == s;
    ParseUndoesPrint(p);
    if !checked {
      ChecksOnlyReject(s, p);
    }
  }

  /** A text that starts with `#` and parses to its own rest as the label is a pure label. */
  lemma OnlyPureLabelsParse(s: string, checked: bool, part: Parts)
    requires HashFirst(s) && Parses(s, checked, Success(part)) && part.tag == Some(s[1..])
    ensures PureLabel(s) && LabelOnly(part)
  {
    PrintUndoesParse(s, checked, part);
    AcceptedPieces(s, checked, part);
    assert |Print(part)| == |Prefix(part)| + |part.path| + |part.tag.value| + 1;
  }

  lemma NotLabelOnly(s: string, checked: bool, part: Parts)
    requires !HashFirst(s) && Parses(s, checked, Success(part))
    ensures !LabelOnly(part)
  {
    PrintUndoesParse(s, checked, part);
    PrintStart(part);
  }

  /** Resolving a text and resolving what it parses to agree exactly on texts that do not start with
      `#`, and on pure labels. In particular they agree on every text that passes the debug checks. */
  lemma RoutesAgreeExactly(base: Parts, embed: bool, s: string, checked: bool,
                           r: Result<Resolved, ParseError>, r': Result<Resolved, ParseError>)
    requires ResolvesDirectly(base, embed, s, checked, r) && ResolvesParsed(base, embed, s, checked, r')
    ensures r == r' <==> !HashFirst(s) || PureLabel(s)
  {
    var parsed' :| Parses(s, checked, parsed') && r' == Outcome(base, embed, parsed', false);
    if !HashFirst(s) {
      var parsed :| Parses(s, checked, parsed) && r == Outcome(base, embed, parsed, true);
      ParsesOnce(s, checked, parsed, parsed');
      if parsed.Success? {
        NotLabelOnly(s, checked, parsed.value);
      }
    } else if PureLabel(s) {
      PureLabelParses(s, checked);
      ParsesOnce(s, checked, parsed', Success(Parts(None, "", Some(s[1..]))));
    } else if r == r' {
      OnlyPureLabelsParse(s, checked, parsed'.value);
    }
  }

  /** The routes can differ: `#a#b` is the label `a#b` on the one; on the other it is the label `b` of the
      path `#a`, or rejected by the debug checks. */
  lemma RoutesDiffer(base: Parts, embed: bool, checked: bool, r: Result<Resolved, ParseError>,
                     r': Result<Resolved, ParseError>)
    requires ResolvesDirectly(base, embed, "#a#b", checked, r) && ResolvesParsed(base, embed, "#a#b", checked, r')
    ensures r != r'
  {
    RoutesAgreeExactly(base, embed, "#a#b", checked, r, r');
    assert "#a#b"[1..][1] == '#';
  }

  /** On every text that passes the debug checks the routes agree. */
  lemma CheckedTextsAgree(base: Parts, embed: bool, s: string, p: Parts,
                          r: Result<Resolved, ParseError>, r': Result<Resolved, ParseError>)
    requires Parses(s, true, Success(p))
    requires ResolvesDirectly(base, embed, s, true, r) && ResolvesParsed(base, embed, s, true, r')
    ensures r == r'
  {
    RoutesAgreeExactly(base, embed, s, true, r, r');
    if HashFirst(s) {
      AcceptedIsWellFormed(s, p);
      PrintUndoesParse(s, true, p);
      HashStartsLabel(p);
      OnlyPureLabelsParse(s, true, p);
    }
  }

  lemma HashStartsLabel(p: Parts)
    requires WellFormed(p) && HashFirst(Print(p))
    ensures p.tag == Some(Print(p)[1..])
  {
    PrintStart(p);
  }

  // ------------------------------------------------------------------------------------------
  // Where resolving leads
  // ------------------------------------------------------------------------------------------

  lemma TidiedLeads(p: Path)
    ensures Leads(Tidied(p)) == Leads(p)
    ensures ParentDir in Tidied(p) ==> Tidied(p) == Normalized(Tidied(p))
  {
    LeadsShortest(Leads(p));
  }

  lemma PushLeads(b: Path, p: Path)
    requires IsRelative(p)
    ensures Leads(Push(b, p)) == LeadsFrom(Leads(b), p)
  {
    LeadsOn(START, b, WithoutDot(p));
    if p != [] && p[0] == CurDir {
      assert p == [CurDir] + p[1..] && [CurDir][..0] == [];
      LeadsOn(Leads(b), [CurDir], p[1..]);
      assert LeadsFrom(Leads(b), [CurDir]) == Leads(b);
    }
  }

  /** Resolving leads where the path leads from the base path, or from the top of the source when the path
      has a root or a source of its own; and the result has no `..` that could be collapsed. */
  lemma CombinedLeads(base: Parts, embed: bool, part: Parts)
    ensures var (r, path) := (FromParts(base, embed, part).path, Components(part.path));
      && Leads(r) ==
           LeadsFrom(if IsRelative(path) && part.source.None? then Leads(BasePath(base, embed)) else START,
                     Unrooted(path))
      && (ParentDir in r ==> r == Normalized(r))
  {
    var path := Components(part.path);
    ComponentsPlaced(part.path);
    assert IsRelative(Unrooted(path));
    TidiedLeads(Combined(base, embed, part));
    PushLeads(if IsRelative(path) && part.source.None? then BasePath(base, embed) else [], Unrooted(path));
  }

  predicate Rooted(s: string) {
    s != "" && s[0] == '/'
  }

  lemma RootedExactly(s: string)
    ensures IsRelative(Components(s)) <==> !Rooted(s)
  {
    ScanBelowHead(s);
  }

  /** What plain resolving gives. A path that is a label only replaces the label. Any other keeps its own
      label, and its source if it has one; its path, when relative and without a source, is pushed onto the
      base path as text, and otherwise counts from the top of the source. Dot segments are collapsed exactly
      when there is a `..`. With a root or a source of the path's own, embedded resolving is the same. */
  lemma ResolvesTo(base: Parts, embed: bool, part: Parts)
    ensures var r := ResolveParts(base, embed, part);
      if part.source.None? && part.path == "" && part.tag.Some? then
        r == Resolved(base.source, Components(base.path), part.tag)
      else
        && r.source == (if part.source.Some? then part.source else base.source) && r.tag == part.tag
        && (Rooted(part.path) || part.source.Some? || !embed ==>
              var q := if Rooted(part.path) then Components(part.path)[1..]
                       else if part.source.Some? then Components(part.path)
                       else Components(PushText(base.path, part.path));
              r.path == if ParentDir in q then Normalized(q) else q)
  {
    RootedExactly(part.path);
    PushAgrees(base.path, part.path);
    ComponentsPlaced(part.path);
  }

  /** Where that leads: from the base, along the path; or from the top of the source. */
  lemma ResolveLeads(base: Parts, part: Parts)
    requires part.source.Some? || part.path != "" || part.tag.None?
    ensures var (r, path) := (ResolveParts(base, false, part).path, Components(part.path));
      && Leads(r) == (
           if Rooted(part.path) then LeadsFrom(START, path[1..])
           else if part.source.Some? then LeadsFrom(START, path)
           else LeadsFrom(Leads(Components(base.path)), path))
      && (ParentDir in r ==> r == Normalized(r))
  {
    CombinedLeads(base, false, part);
    RootedExactly(part.path);
  }

  /** Not every result is in normal form: without a `..` a `.` in front stays. */
  lemma NormalUnlessDot(base: Parts, part: Parts)
    requires part.path != "" && !Rooted(part.path) && part.source.None?
    ensures var (r, q) := (ResolveParts(base, false, part).path, Components(PushText(base.path, part.path)));
      r == Normalized(r) <==> ParentDir in q || !DotFirst(q)
  {
    var q := Components(PushText(base.path, part.path));
    ResolvesTo(base, false, part);
    ComponentsPlaced(PushText(base.path, part.path));
    if ParentDir in q {
      NormalizeTwice(q);
    } else {
      NormalExactly(q);
    }
  }

  lemma DotInFront()
    ensures Components("./c") == [CurDir, Normal("c")]
  {
    NextSegment(".", "c");
    FirstSegment(".");
    assert "." + "/" + "c" == "./c";
  }

  lemma DotStays(base: Parts, part: Parts)
    requires base.path == "" && part.path == "./c" && part.source.None?
    ensures var r := ResolveParts(base, false, part).path; r == [CurDir, Normal("c")] && r != Normalized(r)
  {
    DotInFront();
    assert PushText("", "./c") == "./c";
    ResolvesTo(base, false, part);
    NormalUnlessDot(base, part);
  }

  // ------------------------------------------------------------------------------------------
  // Embedded resolving
  // ------------------------------------------------------------------------------------------

  /** Against a base that ends in a slash embedded resolving is plain resolving. */
  lemma EmbedOntoSlash(base: Parts, part: Parts)
    requires base.path != "" && base.path[|base.path| - 1] == '/'
    ensures ResolveParts(base, true, part) == ResolveParts(base, false, part)
  {
  }

  lemma SameBasePath(base: Parts, embed: bool, base': Parts, embed': bool, part: Parts)
    requires BasePath(base, embed) == BasePath(base', embed') && base'.source == base.source
    requires part.source.Some? || part.path != "" || part.tag.None?
    ensures ResolveParts(base, embed, part) == ResolveParts(base', embed', part)
  {
  }

  lemma EndsWith(a: string, n: string)
    requires n != "" && NoSlash(n)
    ensures DropsName(a + n)
  {
    assert (a + n)[|a + n| - 1] == n[|n| - 1];
  }

  lemma DroppedName(base: Parts, a: string, n: string)
    requires base.path == a + n && n != "" && NoSlash(n)
    ensures BasePath(base, true) == Popped(Components(base.path))
  {
    EndsWith(a, n);
  }

  lemma PoppedName(d: string, n: string)
    requires n != "" && n != "." && NoSlash(n)
    ensures Popped(Components(d + "/" + n)) == Components(d + "/")
  {
    NextSegment(d, n);
    NextSegment(d, "");
    assert d + "/" + "" == d + "/";
  }

  /** Otherwise its file name is dropped: the last segment, up to the slash before it. */
  lemma EmbedDropsName(base: Parts, d: string, n: string, part: Parts)
    requires base.path == d + "/" + n && n != "" && n != "." && NoSlash(n)
    requires part.source.Some? || part.path != "" || part.tag.None?
    ensures ResolveParts(base, true, part) == ResolveParts(base.(path := d + "/"), false, part)
  {
    DroppedName(base, d + "/", n);
    PoppedName(d, n);
    SameBasePath(base, true, base.(path := d + "/"), false, part);
  }

  lemma PoppedAll(n: string)
    requires NoSlash(n)
    ensures Popped(Components(n)) == [] == Components("")
  {
    FirstSegment(n);
    FirstSegment("");
  }

  /** Without a slash nothing is left of it. */
  lemma EmbedDropsAll(base: Parts, part: Parts)
    requires NoSlash(base.path)
    requires part.source.Some? || part.path != "" || part.tag.None?
    ensures ResolveParts(base, true, part) == ResolveParts(base.(path := ""), false, part)
  {
    PoppedAll(base.path);
    SameBasePath(base, true, base.(path := ""), false, part);
  }

  lemma BeforeDot(d: string)
    ensures Components(d + "/.") == if d == "" then [RootDir] else Components(d)
  {
    NextSegment(d, ".");
    assert d + "/" + "." == d + "/.";
  }

  lemma DotAlone()
    ensures Components("/") == [RootDir]
  {
    NextSegment("", "");
    assert "" + "/" + "" == "/";
  }

  lemma DotBehindSlash(d: string, e: string)
    requires d == e + "/"
    ensures Components(d + "/.") == Components(d + ".")
  {
    BeforeDot(e + "/");
    NextSegment(e, "");
    NextSegment(e, ".");
    assert e + "/" + "" == e + "/";
  }

  lemma SameDropped(base: Parts, s: string, part: Parts)
    requires DropsName(base.path) && DropsName(s) && Components(base.path) == Components(s)
    requires part.source.Some? || part.path != "" || part.tag.None?
    ensures ResolveParts(base, true, part) == ResolveParts(base.(path := s), true, part)
  {
    SameBasePath(base, true, base.(path := s), true, part);
  }

  lemma RootStays(base: Parts, part: Parts)
    requires base.path == "/."
    requires part.source.Some? || part.path != "" || part.tag.None?
    ensures ResolveParts(base, true, part) == ResolveParts(base.(path := "/"), false, part)
  {
    BeforeDot("");
    assert "" + "/." == "/.";
    DotAlone();
    SameBasePath(base, true, base.(path := "/"), false, part);
  }

  /** A last segment `.` is no file name: dropping goes on with the text before it. */
  lemma EmbedOntoDot(base: Parts, d: string, part: Parts)
    requires base.path == d + "/."
    requires part.source.Some? || part.path != "" || part.tag.None?
    ensures ResolveParts(base, true, part) ==
      if d == "" then ResolveParts(base.(path := "/"), false, part)
      else if d[|d| - 1] == '/' then ResolveParts(base.(path := d + "."), true, part)
      else ResolveParts(base.(path := d), true, part)
  {
    if d == "" {
      RootStays(base, part);
    } else if d[|d| - 1] == '/' {
      DotBehindSlash(d, d[..|d| - 1]);
      SameDropped(base, d + ".", part);
    } else {
      BeforeDot(d);
      SameDropped(base, d, part);
    }
  }

  lemma ApprovedIsRelative(p: Path)
    requires Approved(p)
    ensures IsRelative(p)
  {
    if p != [] && p[0] == RootDir {
      assert p == [RootDir] + p[1..] && [RootDir][..0] == [];
      LeadsOn(START, [RootDir], p[1..]);
      assert LeadsFrom(START, [RootDir]) == Place(true, 0, []);
      OutsideStays(Place(true, 0, []), p[1..]);
    }
  }

  lemma BaseStaysApproved(base: Parts, embed: bool)
    requires Approved(Components(base.path))
    ensures Approved(BasePath(base, embed))
  {
    var b := Components(base.path);
    if b != [] {
      assert b == b[..|b| - 1] + b[|b| - 1..];
      ApprovedFront(b[..|b| - 1], b[|b| - 1..]);
    }
  }

  lemma FromPartsApproved(base: Parts, embed: bool, part: Parts)
    requires Approved(BasePath(base, embed)) && Approved(Components(part.path))
    ensures Approved(FromParts(base, embed, part).path)
  {
    var path := Components(part.path);
    var at := if IsRelative(path) && part.source.None? then Leads(BasePath(base, embed)) else START;
    ApprovedIsRelative(path);
    CombinedLeads(base, embed, part);
    ApprovedFrom(at, path);
  }

  /** Resolving an approved path against an approved base stays approved. */
  lemma ResolveStaysApproved(base: Parts, embed: bool, part: Parts)
    requires Approved(Components(base.path)) && Approved(Components(part.path))
    ensures Approved(ResolveParts(base, embed, part).path)
  {
    if !LabelOnly(part) {
      BaseStaysApproved(base, embed);
      FromPartsApproved(base, embed, part);
    }
  }
}
