/** Paths as component sequences, the way `std::path` compares them, and dot-segment normalization:
    `normalize_path` of crates/zlim-asset/src/utils.rs and `is_unapproved` of
    crates/zlim-asset/src/path.rs. */
module PathComponents {

  datatype Component = RootDir | CurDir | ParentDir | Normal(name: string)

  type Path = seq<Component>

  /** `/` and a leading `.` only come first. */
  predicate WellPlaced(p: Path) {
    forall k :: 0 < k < |p| ==> p[k] != RootDir && p[k] != CurDir
  }

  predicate IsRelative(p: Path) {
    p == [] || p[0] != RootDir
  }

  // ------------------------------------------------------------------------------------------
  // Text
  // ------------------------------------------------------------------------------------------

  /** What one segment between slashes stands for; empty and `.` segments are dropped. */
  function Segment(s: string): Path {
    if s == "" || s == "." then []
    else if s == ".." then [ParentDir]
    else [Normal(s)]
  }

  /** The finished segments of a text, and the one that is still open. */
  datatype Scanned = Scanned(finished: Path, open: string)

  function Scan(s: string): Scanned {
    if s == "" then Scanned([], "")
    else Read(Scan(s[..|s| - 1]), s[|s| - 1])
  }

  function Read(at: Scanned, c: char): Scanned {
    if c == '/' then Scanned(at.finished + Segment(at.open), "") else at.(open := at.open + [c])
  }

  function Body(s: string): Path {
    Scan(s).finished + Segment(Scan(s).open)
  }

  predicate StartsWithDot(s: string) {
    s == "." || (|s| >= 2 && s[0] == '.' && s[1] == '/')
  }

  /** The root, or a leading `.`. */
  function Head(s: string): Path {
    if s != "" && s[0] == '/' then [RootDir] else if StartsWithDot(s) then [CurDir] else []
  }

  function Components(s: string): Path {
    Head(s) + Body(s)
  }

  /** `PathBuf::push` on the text: an absolute path replaces the whole, any other goes behind a
      separator. */
  function PushText(b: string, p: string): string {
    if p != "" && p[0] == '/' then p
    else if b == "" || b[|b| - 1] == '/' then b + p
    else b + "/" + p
  }

  /** The same on components. */
  function Push(b: Path, p: Path): Path {
    if !IsRelative(p) then p
    else if b == [] then p
    else b + WithoutDot(p)
  }

  function WithoutDot(p: Path): Path {
    if p != [] && p[0] == CurDir then p[1..] else p
  }

  lemma ReadJoin(before: Path, at: Scanned, c: char)
    ensures Read(Scanned(before + at.finished, at.open), c) == Scanned(before + Read(at, c).finished, Read(at, c).open)
  {
    assert before + (at.finished + Segment(at.open)) == before + at.finished + Segment(at.open);
  }

  lemma {:induction false} ScanJoin(a: string, b: string)
    ensures Scan(a + "/" + b) == Scanned(Body(a) + Scan(b).finished, Scan(b).open)
  {
    var s := a + "/" + b;
    if b == "" {
      assert s[..|s| - 1] == a && s[|s| - 1] == '/';
      assert Body(a) + [] == Body(a);
    } else {
      var b', c := b[..|b| - 1], b[|b| - 1];
      ScanJoin(a, b');
      assert s[..|s| - 1] == a + "/" + b' && s[|s| - 1] == c;
      ReadJoin(Body(a), Scan(b'), c);
    }
  }

  lemma BodyJoin(a: string, b: string)
    ensures Body(a + "/" + b) == Body(a) + Body(b)
  {
    ScanJoin(a, b);
    assert Body(a) + (Scan(b).finished + Segment(Scan(b).open)) == Body(a) + Scan(b).finished + Segment(Scan(b).open);
  }

  predicate BelowHead(p: Path) {
    forall k :: 0 <= k < |p| ==> p[k].ParentDir? || p[k].Normal?
  }

  lemma {:induction false} ScanBelowHead(s: string)
    ensures BelowHead(Scan(s).finished) && BelowHead(Body(s))
  {
    if s != "" {
      ScanBelowHead(s[..|s| - 1]);
    }
  }

  lemma ComponentsPlaced(s: string)
    ensures WellPlaced(Components(s))
  {
    ScanBelowHead(s);
  }

  lemma HeadKept(b: string, t: string)
    requires b != "" && (b[|b| - 1] == '/' || (t != "" && t[0] == '/'))
    ensures Head(b + t) == Head(b)
  {
    var s := b + t;
    assert s[0] == b[0] && (|b| == 1 && t != "" ==> s[1] == t[0]) && (|b| >= 2 ==> s[1] == b[1]);
  }

  /** What a text without a root contributes behind another one. */
  lemma {:induction false} OpenGrows(s: string)
    requires s != ""
    ensures Scan(s).finished == [] && Scan(s).open in {"", "."} ==> s[0] == '/' || StartsWithDot(s)
  {
    if |s| > 1 {
      OpenGrows(s[..|s| - 1]);
    }
  }

  lemma TextHasComponents(s: string)
    requires s != ""
    ensures Components(s) != []
  {
    OpenGrows(s);
  }

  lemma HeadIsDot(p: string)
    requires p == "" || p[0] != '/'
    ensures WithoutDot(Components(p)) == Body(p) && IsRelative(Components(p))
  {
    ScanBelowHead(p);
  }

  lemma Assemble(head: Path, body: Path, p: Path, rest: Path)
    requires IsRelative(p) && WithoutDot(p) == rest && head + body != []
    ensures head + (body + rest) == Push(head + body, p)
  {
  }

  lemma JoinAgrees(b: string, p: string, t: string)
    requires b != "" && (b[|b| - 1] == '/' || (t != "" && t[0] == '/'))
    requires (p == "" || p[0] != '/') && Body(b + t) == Body(b) + Body(p)
    ensures Components(b + t) == Push(Components(b), Components(p))
  {
    HeadIsDot(p);
    TextHasComponents(b);
    HeadKept(b, t);
    Assemble(Head(b), Body(b), Components(p), Body(p));
  }

  lemma TrailingSlash(a: string)
    ensures Body(a + "/") == Body(a)
  {
    assert (a + "/")[..|a|] == a;
    assert Body(a) + [] == Body(a);
  }

  lemma BehindSlash(b: string, p: string, a: string)
    requires b == a + "/"
    ensures Body(b + p) == Body(b) + Body(p)
  {
    BodyJoin(a, p);
    TrailingSlash(a);
  }

  lemma PushOntoSlash(b: string, p: string)
    requires b != "" && b[|b| - 1] == '/' && (p == "" || p[0] != '/')
    ensures Components(b + p) == Push(Components(b), Components(p))
  {
    assert b == b[..|b| - 1] + "/";
    BehindSlash(b, p, b[..|b| - 1]);
    JoinAgrees(b, p, p);
  }

  lemma PushBehindName(b: string, p: string)
    requires b != "" && (p == "" || p[0] != '/')
    ensures Components(b + "/" + p) == Push(Components(b), Components(p))
  {
    BodyJoin(b, p);
    assert b + ("/" + p) == b + "/" + p;
    JoinAgrees(b, p, "/" + p);
  }

  /** The component view is faithful: pushing texts and pushing components agree. */
  lemma PushAgrees(b: string, p: string)
    ensures Components(PushText(b, p)) == Push(Components(b), Components(p))
  {
    if p == "" || p[0] != '/' {
      if b == "" {
        assert b + p == p;
        HeadIsDot(p);
      } else if b[|b| - 1] == '/' {
        PushOntoSlash(b, p);
      } else {
        PushBehindName(b, p);
      }
    }
  }

  predicate NoSlash(s: string) {
    forall k :: 0 <= k < |s| ==> s[k] != '/'
  }

  lemma OpenNext(n: string, at: Scanned)
    requires n != "" && NoSlash(n) && at == Scanned([], n[..|n| - 1])
    ensures Read(at, n[|n| - 1]) == Scanned([], n)
  {
    assert n[..|n| - 1] + [n[|n| - 1]] == n;
  }

  lemma {:induction false} ScanOpen(n: string)
    requires NoSlash(n)
    ensures Scan(n) == Scanned([], n)
  {
    if n != "" {
      ScanOpen(n[..|n| - 1]);
      OpenNext(n, Scan(n[..|n| - 1]));
    }
  }

  lemma HeadOpen(n: string)
    requires NoSlash(n)
    ensures Head(n) == if n == "." then [CurDir] else []
  {
  }

  lemma BodyOpen(n: string)
    requires NoSlash(n)
    ensures Body(n) == Segment(n)
  {
    ScanOpen(n);
  }

  /** What a text without a slash stands for. */
  lemma FirstSegment(n: string)
    requires NoSlash(n)
    ensures Components(n) ==
      if n == "" then [] else if n == "." then [CurDir] else if n == ".." then [ParentDir] else [Normal(n)]
  {
    HeadOpen(n);
    BodyOpen(n);
  }

  lemma HeadBefore(a: string, t: string)
    requires t != "" && t[0] == '/'
    ensures Head(a + t) == if a == "" then [RootDir] else Head(a)
  {
    if a != "" {
      HeadKept(a, t);
    }
  }

  /** What one more segment adds: with `FirstSegment` this says what any text stands for. */
  lemma NextSegment(a: string, n: string)
    requires NoSlash(n)
    ensures Components(a + "/" + n) == (if a == "" then [RootDir] else Components(a)) +
      if n == "" || n == "." then [] else if n == ".." then [ParentDir] else [Normal(n)]
  {
    assert a + "/" + n == a + ("/" + n);
    HeadBefore(a, "/" + n);
    BodyJoin(a, n);
    BodyOpen(n);
  }

  // ------------------------------------------------------------------------------------------
  // Where a path leads
  // ------------------------------------------------------------------------------------------

  /** A place relative to the start: so many directories up, and from there down along `names`. From
      the root every way up is still recorded, as the code does. */
  datatype Place = Place(fromRoot: bool, up: nat, names: seq<string>)

  function Step(at: Place, c: Component): Place {
    match c
    case RootDir => Place(true, 0, [])
    case CurDir => at
    case ParentDir => if at.names != [] then at.(names := at.names[..|at.names| - 1]) else at.(up := at.up + 1)
    case Normal(n) => at.(names := at.names + [n])
  }

  function LeadsFrom(at: Place, p: Path): Place {
    if p == [] then at else Step(LeadsFrom(at, p[..|p| - 1]), p[|p| - 1])
  }

  /** The place that a path leads to. */
  function Leads(p: Path): Place {
    LeadsFrom(Place(false, 0, []), p)
  }

  /** The shortest path to a place. */
  function Shortest(at: Place): Path {
    (if at.fromRoot then [RootDir] else []) + Parents(at.up) + Named(at.names)
  }

  lemma {:induction false} LeadsOn(at: Place, a: Path, b: Path)
    ensures LeadsFrom(at, a + b) == LeadsFrom(LeadsFrom(at, a), b)
  {
    if b == [] {
      assert a + b == a;
    } else {
      LeadsOn(at, a, b[..|b| - 1]);
      assert (a + b)[..|a + b| - 1] == a + b[..|b| - 1];
    }
  }

  // ------------------------------------------------------------------------------------------
  // Normalization
  // ------------------------------------------------------------------------------------------

  /** `PathBuf::file_name` is there. */
  predicate HasFileName(p: Path) {
    p != [] && p[|p| - 1].Normal?
  }

  function Parents(n: nat): Path {
    seq(n, _ => ParentDir)
  }

  function Named(names: seq<string>): Path {
    seq(|names|, k requires 0 <= k < |names| => Normal(names[k]))
  }

  lemma NamedNext(names: seq<string>, n: string)
    ensures Named(names + [n]) == Named(names) + [Normal(n)]
  {
  }

  lemma ParentsNext(n: nat)
    ensures Parents(n + 1) == Parents(n) + [ParentDir]
  {
  }

  lemma LastNamed(at: Place)
    requires at.names != []
    ensures HasFileName(Shortest(at))
    ensures Shortest(at)[..|Shortest(at)| - 1] == Shortest(at.(names := at.names[..|at.names| - 1]))
  {
    var names, last := at.names[..|at.names| - 1], at.names[|at.names| - 1];
    assert at.names == names + [last];
    NamedNext(names, last);
  }

  lemma NoneNamed(at: Place)
    requires at.names == []
    ensures !HasFileName(Shortest(at))
  {
    assert Named([]) == [];
    if at.up > 0 {
      ParentsNext(at.up - 1);
    }
  }

  lemma PushNormal(at: Place, n: string)
    ensures Push(Shortest(at), [Normal(n)]) == Shortest(at.(names := at.names + [n]))
  {
    NamedNext(at.names, n);
    var p := Shortest(at);
    assert p + [Normal(n)] == Shortest(at.(names := at.names + [n]));
  }

  lemma PushParent(at: Place)
    requires at.names == []
    ensures Push(Shortest(at), [ParentDir]) == Shortest(at.(up := at.up + 1))
  {
    ParentsNext(at.up);
    assert Named([]) == [];
    var p := Shortest(at);
    assert p + [ParentDir] == Shortest(at.(up := at.up + 1));
  }

  /** One turn of the loop. */
  lemma ShortestStep(at: Place, c: Component)
    requires c != CurDir
    ensures Shortest(Step(at, c)) ==
      if c == ParentDir && HasFileName(Shortest(at)) then Shortest(at)[..|Shortest(at)| - 1]
      else Push(Shortest(at), [c])
  {
    match c
    case RootDir =>
      assert Parents(0) == [] && Named([]) == [];
    case Normal(n) => PushNormal(at, n);
    case ParentDir =>
      if at.names != [] {
        LastNamed(at);
      } else {
        NoneNamed(at);
        PushParent(at);
      }
  }

  lemma NormalizeTurn(path: Path, k: nat)
    requires k < |path|
    ensures var (result, elt) := (Normalized(path[..k]), path[k]);
      Normalized(path[..k + 1]) ==
        if elt == CurDir then result
        else if elt == ParentDir && HasFileName(result) then result[..|result| - 1]
        else Push(result, [elt])
  {
    assert path[..k + 1][..k] == path[..k];
    if path[k] != CurDir {
      ShortestStep(Leads(path[..k]), path[k]);
    }
  }

  /** Collapses dot segments: the result is the shortest path to the same place. */
  method NormalizePath(path: Path) returns (result: Path)
    ensures result == Normalized(path)
  {
    result := [];
    for k := 0 to |path|
      invariant result == Normalized(path[..k])
    {
      NormalizeTurn(path, k);
      var elt := path[k];
      if elt == CurDir {
      } else if elt == ParentDir {
        if HasFileName(result) {
          result := result[..|result| - 1];
        } else {
          result := Push(result, [elt]);
        }
      } else {
        result := Push(result, [elt]);
      }
    }
    assert path[..|path|] == path;
  }

  function Normalized(path: Path): Path {
    Shortest(Leads(path))
  }

  const START := Place(false, 0, [])

  lemma {:induction false} LeadsParents(n: nat, fromRoot: bool)
    ensures LeadsFrom(Place(fromRoot, 0, []), Parents(n)) == Place(fromRoot, n, [])
  {
    if n > 0 {
      LeadsParents(n - 1, fromRoot);
      ParentsNext(n - 1);
      assert Parents(n)[..n - 1] == Parents(n - 1);
    }
  }

  lemma {:induction false} LeadsNamed(at: Place, names: seq<string>)
    requires at.names == []
    ensures LeadsFrom(at, Named(names)) == at.(names := names)
  {
    if names != [] {
      var last := |names| - 1;
      LeadsNamed(at, names[..last]);
      assert Named(names)[..last] == Named(names[..last]);
      assert names == names[..last] + [names[last]];
    }
  }

  /** The shortest path to a place leads there. */
  lemma LeadsShortest(at: Place)
    ensures Leads(Shortest(at)) == at
  {
    var root: Path := if at.fromRoot then [RootDir] else [];
    LeadsParents(at.up, at.fromRoot);
    LeadsOn(START, root, Parents(at.up));
    LeadsOn(START, root + Parents(at.up), Named(at.names));
    assert root[..0] == [];
    assert LeadsFrom(START, root) == Place(at.fromRoot, 0, []);
    LeadsNamed(Place(at.fromRoot, at.up, []), at.names);
  }

  /** Normalizing keeps the place, and two paths to one place normalize alike. */
  lemma NormalizedExactly(a: Path, b: Path)
    ensures Leads(Normalized(a)) == Leads(a)
    ensures Normalized(a) == Normalized(b) <==> Leads(a) == Leads(b)
  {
    LeadsShortest(Leads(a));
    LeadsShortest(Leads(b));
  }

  lemma NormalizeTwice(a: Path)
    ensures Normalized(Normalized(a)) == Normalized(a)
  {
    LeadsShortest(Leads(a));
  }

  /** Normalizing a front part first makes no difference. */
  lemma NormalizeFront(a: Path, b: Path)
    ensures Normalized(a + b) == Normalized(Normalized(a) + b)
  {
    LeadsShortest(Leads(a));
    LeadsOn(START, a, b);
    LeadsOn(START, Normalized(a), b);
  }

  lemma {:induction false} NoShorter(q: Path)
    ensures |Normalized(q)| <= |q|
  {
    if q != [] {
      NoShorter(q[..|q| - 1]);
    }
  }

  /** No path to the same place is shorter than the normalized one. */
  lemma NormalizedIsShortest(p: Path, q: Path)
    requires Leads(p) == Leads(q)
    ensures |Normalized(p)| <= |q|
  {
    NoShorter(q);
  }

  predicate DotFirst(p: Path) {
    p != [] && p[0] == CurDir
  }

  lemma OneFurther(front: Path, c: Component)
    ensures Leads(front + [c]) == Step(Leads(front), c)
  {
    assert (front + [c])[..|front|] == front;
  }

  lemma NameTurn(front: Path, c: Component)
    requires Normalized(front) == front && (c.Normal? || (c == RootDir && front == []))
    ensures Normalized(front + [c]) == front + [c]
  {
    OneFurther(front, c);
    ShortestStep(Leads(front), c);
  }

  /** Names, perhaps behind a root. */
  predicate NamesOnly(p: Path) {
    forall k :: 0 <= k < |p| ==> p[k].Normal? || (k == 0 && p[k].RootDir?)
  }

  lemma {:induction false} NamesStay(p: Path)
    requires NamesOnly(p)
    ensures Normalized(p) == p
  {
    if p == [] {
      assert Parents(0) == [] && Named([]) == [];
    } else {
      NamesStay(p[..|p| - 1]);
      NameTurn(p[..|p| - 1], p[|p| - 1]);
      assert p == p[..|p| - 1] + [p[|p| - 1]];
    }
  }

  /** Without a `..` a path is its own normal form exactly when it does not start with `.`. */
  lemma NormalExactly(p: Path)
    requires WellPlaced(p) && ParentDir !in p
    ensures Normalized(p) == p <==> !DotFirst(p)
  {
    if DotFirst(p) {
      assert p == [CurDir] + p[1..] && [CurDir][..0] == [];
      LeadsOn(START, [CurDir], p[1..]);
      assert LeadsFrom(START, [CurDir]) == START;
      NoShorter(p[1..]);
    } else {
      assert forall k :: 0 <= k < |p| ==> p[k] in p;
      NamesStay(p);
    }
  }

  lemma {:induction false} StaysRelative(p: Path)
    requires IsRelative(p) && WellPlaced(p)
    ensures !Leads(p).fromRoot
  {
    if p != [] {
      StaysRelative(p[..|p| - 1]);
    }
  }

  /** A relative path normalizes to some `..` and then names. */
  lemma NormalizedForm(p: Path)
    requires IsRelative(p) && WellPlaced(p)
    ensures Normalized(p) == Parents(Leads(p).up) + Named(Leads(p).names)
  {
    StaysRelative(p);
    assert [] + Parents(Leads(p).up) == Parents(Leads(p).up);
  }

  // ------------------------------------------------------------------------------------------
  // Unapproved paths
  // ------------------------------------------------------------------------------------------

  /** The path starts at the root, or above where it should start. */
  predicate StartsOutside(p: Path) {
    p != [] && (p[0] == RootDir || p[0] == ParentDir)
  }

  predicate Outside(at: Place) {
    at.fromRoot || at.up > 0
  }

  lemma OutsideStarts(at: Place)
    ensures StartsOutside(Shortest(at)) <==> Outside(at)
  {
    assert at.up > 0 ==> Parents(at.up)[0] == ParentDir;
    assert at.names != [] ==> Named(at.names)[0] == Normal(at.names[0]);
  }

  lemma {:induction false} OutsideStays(at: Place, p: Path)
    requires Outside(at)
    ensures Outside(LeadsFrom(at, p))
  {
    if p != [] {
      OutsideStays(at, p[..|p| - 1]);
    }
  }

  /** The check reports exactly the paths whose normal form starts with the root or with `..`. */
  method IsUnapproved(path: Path) returns (unapproved: bool)
    ensures unapproved <==> StartsOutside(Normalized(path))
  {
    var count: nat := 0;
    OutsideStarts(Leads(path));
    for k := 0 to |path|
      invariant !Outside(Leads(path[..k])) && count == |Leads(path[..k]).names|
    {
      assert path[..k + 1][..k] == path[..k];
      LeadsOn(START, path[..k + 1], path[k + 1..]);
      assert path == path[..k + 1] + path[k + 1..];
      ghost var next := Leads(path[..k + 1]);
      assert next == Step(Leads(path[..k]), path[k]);
      if Outside(next) {
        OutsideStays(next, path[k + 1..]);
      }
      match path[k] {
        case RootDir => return true;
        case CurDir =>
        case ParentDir =>
          if count == 0 {
            return true;
          }
          count := count - 1;
        case Normal(_) =>
          count := count + 1;
      }
    }
    assert path[..|path|] == path;
    unapproved := false;
  }

  predicate Approved(p: Path) {
    !Outside(Leads(p))
  }

  lemma ApprovedFront(a: Path, b: Path)
    requires Approved(a + b)
    ensures Approved(a)
  {
    LeadsOn(START, a, b);
    if Outside(Leads(a)) {
      OutsideStays(Leads(a), b);
    }
  }

  lemma {:induction false} DeeperStart(names: seq<string>, b: Path)
    requires Approved(b)
    ensures LeadsFrom(Place(false, 0, names), b) == Place(false, 0, names + Leads(b).names)
  {
    if b == [] {
      assert names + [] == names;
    } else {
      var last := |b| - 1;
      assert b == b[..last] + b[last..];
      ApprovedFront(b[..last], b[last..]);
      DeeperStart(names, b[..last]);
      var inner := Leads(b[..last]).names;
      if b[last].Normal? {
        assert names + (inner + [b[last].name]) == names + inner + [b[last].name];
      }
    }
  }

  lemma ApprovedFrom(at: Place, b: Path)
    requires !Outside(at) && Approved(b)
    ensures !Outside(LeadsFrom(at, b))
  {
    DeeperStart(at.names, b);
    assert at == Place(false, 0, at.names);
  }
}
