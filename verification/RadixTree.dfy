/** The route tree: paths are cut into segments, routes are kept in a tree of static, parameter
    and wildcard children, and a request is matched by a backtracking search.

    The flat meaning it is proved against is a list of registrations. A registration has a shape
    (the kinds of its segments); the latest one of a shape and method counts; and among the
    shapes that match a request the best is static before parameter before wildcard, segment by
    segment. */
module Routes {
  import opened Bytes

  datatype Method = Get | Head | Post | Put | Delete | Options | Patch | Unknown

  /** A registered handler: an ordinary one and the four streaming callbacks, present or not. */
  datatype Entry = Entry(id: nat, handler: bool, onHeaders: bool, onBody: bool, onComplete: bool, onAbort: bool)
  {
    predicate HasHandler() {
      handler
    }

    predicate HasStreamHandler() {
      onHeaders || onBody || onComplete || onAbort
    }

    predicate HasAnyHandler()
      ensures HasAnyHandler() <==> this != NO_ENTRY.(id := id)
    {
      HasHandler() || HasStreamHandler()
    }
  }

  const NO_ENTRY := Entry(0, false, false, false, false, false)

  type Table = map<Method, Entry>

  function RouteOf(t: Table, m: Method): Entry {
    if m in t then t[m] else NO_ENTRY
  }

  predicate AnyHandler(t: Table) {
    exists m :: m in t && t[m].HasAnyHandler()
  }

  /** A node; the wildcard child only ever carries routes. */
  datatype Node = Node(
    prefix: string, children: seq<Node>,
    param: Option<Node>, paramName: string,
    wild: Option<Table>, wildName: string,
    routes: Table)

  function Fresh(prefix: string): Node {
    Node(prefix, [], None, "", None, "", map[])
  }

  /** Index of the first child with this prefix, or the number of children. */
  function FindChild(children: seq<Node>, s: string): (i: nat)
    ensures i <= |children|
    ensures i < |children| ==> children[i].prefix == s
    ensures forall j :: 0 <= j < i ==> children[j].prefix != s
  {
    if children == [] then 0
    else if children[0].prefix == s then 0
    else 1 + FindChild(children[1..], s)
  }

  lemma FindChildIs(children: seq<Node>, s: string, i: nat)
    requires i <= |children| && (i < |children| ==> children[i].prefix == s)
    requires forall j :: 0 <= j < i ==> children[j].prefix != s
    ensures FindChild(children, s) == i
  {
  }

  predicate IsWild(s: string) {
    |s| > 1 && s[0] == '*'
  }

  predicate IsParam(s: string) {
    |s| > 1 && s[0] == ':'
  }

  /** `InsertSegments`: the node after registering `e` under the remaining segments. */
  function Insert(n: Node, segs: seq<string>, m: Method, e: Entry): (r: Node)
    ensures r.prefix == n.prefix
    decreases |segs|
  {
    if segs == [] then n.(routes := n.routes[m := e])
    else if IsWild(segs[0]) then
      if n.wild.None? then n.(wild := Some(map[m := e]), wildName := segs[0][1..])
      else n.(wild := Some(n.wild.value[m := e]))
    else if IsParam(segs[0]) then
      if n.param.None? then
        n.(param := Some(Insert(Fresh(""), segs[1..], m, e)), paramName := segs[0][1..])
      else n.(param := Some(Insert(n.param.value, segs[1..], m, e)))
    else
      var i := FindChild(n.children, segs[0]);
      var child := if i < |n.children| then n.children[i] else Fresh(segs[0]);
      n.(children := PutChild(n.children, i, Insert(child, segs[1..], m, e)))
  }

  /** The children with `child` at position `i`, or at the end. */
  function PutChild(children: seq<Node>, i: nat, child: Node): seq<Node> {
    if i < |children| then children[i := child] else children + [child]
  }

  lemma PutChildFinds(children: seq<Node>, child: Node, s: string)
    ensures var after := PutChild(children, FindChild(children, child.prefix), child);
            var j, k := FindChild(children, s), FindChild(after, s);
            if s == child.prefix then k < |after| && after[k] == child
            else if j < |children| then k < |after| && after[k] == children[j]
            else k == |after|
  {
    var after := PutChild(children, FindChild(children, child.prefix), child);
    var j := FindChild(children, s);
    FindChildIs(after, s, if s == child.prefix || j < |children| then j else |after|);
  }

  // ---------------------------------------------------------------- the flat meaning

  datatype Seg = Static(text: string) | Param | Wild

  type Shape = seq<Seg>

  /** The shape of a registered path; nothing after a wildcard matters. */
  function ShapeOf(segs: seq<string>): Shape {
    if segs == [] then []
    else if IsWild(segs[0]) then [Wild]
    else [if IsParam(segs[0]) then Param else Static(segs[0])] + ShapeOf(segs[1..])
  }

  predicate Matches(shape: Shape, texts: seq<string>) {
    if shape == [] then texts == []
    else if texts == [] then false
    else match shape[0]
      case Static(s) => s == texts[0] && Matches(shape[1..], texts[1..])
      case Param => Matches(shape[1..], texts[1..])
      case Wild => shape[1..] == []
  }

  function Kind(s: Seg): nat {
    match s case Static(_) => 0 case Param => 1 case Wild => 2
  }

  /** `a` is more specific than `b` at the first segment where they differ. */
  predicate Before(a: Shape, b: Shape) {
    if a == [] || b == [] then false
    else if a[0] == b[0] then Before(a[1..], b[1..])
    else Kind(a[0]) < Kind(b[0])
  }

  /** The routes the tree keeps under a shape. */
  function Lookup(n: Node, shape: Shape): Table
    decreases |shape|
  {
    if shape == [] then n.routes
    else match shape[0]
      case Static(s) =>
        var i := FindChild(n.children, s);
        if i < |n.children| then Lookup(n.children[i], shape[1..]) else map[]
      case Param => if n.param.Some? then Lookup(n.param.value, shape[1..]) else map[]
      case Wild => if n.wild.Some? && shape[1..] == [] then n.wild.value else map[]
  }

  lemma {:induction false} LookupFresh(prefix: string, shape: Shape)
    ensures Lookup(Fresh(prefix), shape) == map[]
  {
  }

  /** Which child a static segment leads to after an insertion. */
  lemma InsertChild(n: Node, segs: seq<string>, m: Method, e: Entry, s: string)
    requires segs != [] && !IsWild(segs[0]) && !IsParam(segs[0])
    ensures var before, after := n.children, Insert(n, segs, m, e).children;
            var j, k := FindChild(before, s), FindChild(after, s);
            if s == segs[0] then
              && k < |after|
              && after[k] == Insert(if j < |before| then before[j] else Fresh(s), segs[1..], m, e)
            else if j < |before| then k < |after| && after[k] == before[j]
            else k == |after|
  {
    var i := FindChild(n.children, segs[0]);
    var child := if i < |n.children| then n.children[i] else Fresh(segs[0]);
    PutChildFinds(n.children, Insert(child, segs[1..], m, e), s);
  }

  /** Registering changes the table of its own shape, at its own method, and nothing else. */
  lemma {:induction false} InsertUpdates(n: Node, segs: seq<string>, m: Method, e: Entry, shape: Shape)
    ensures Lookup(Insert(n, segs, m, e), shape)
         == if shape == ShapeOf(segs) then Lookup(n, shape)[m := e] else Lookup(n, shape)
    decreases |segs|, 1
  {
    if segs != [] && shape != [] && !IsWild(segs[0]) {
      assert ShapeOf(segs)[1..] == ShapeOf(segs[1..]);
      assert shape == [shape[0]] + shape[1..];
      if IsParam(segs[0]) {
        InsertUpdatesParam(n, segs, m, e, shape);
      } else {
        InsertUpdatesStatic(n, segs, m, e, shape);
      }
    }
  }

  lemma {:induction false} InsertUpdatesParam(n: Node, segs: seq<string>, m: Method, e: Entry, shape: Shape)
    requires segs != [] && shape != [] && !IsWild(segs[0]) && IsParam(segs[0])
    ensures Lookup(Insert(n, segs, m, e), shape)
         == if shape[0] == Param && shape[1..] == ShapeOf(segs[1..]) then Lookup(n, shape)[m := e] else Lookup(n, shape)
    decreases |segs|, 0
  {
    if shape[0] == Param {
      InsertUpdates(if n.param.Some? then n.param.value else Fresh(""), segs[1..], m, e, shape[1..]);
      LookupFresh("", shape[1..]);
    }
  }

  lemma LookupStatic(n: Node, shape: Shape)
    requires shape != [] && shape[0].Static?
    ensures var k := FindChild(n.children, shape[0].text);
      Lookup(n, shape) == if k < |n.children| then Lookup(n.children[k], shape[1..]) else map[]
  {
  }

  lemma {:induction false} InsertUpdatesStatic(n: Node, segs: seq<string>, m: Method, e: Entry, shape: Shape)
    requires segs != [] && shape != [] && !IsWild(segs[0]) && !IsParam(segs[0])
    ensures Lookup(Insert(n, segs, m, e), shape)
         == if shape[0] == Static(segs[0]) && shape[1..] == ShapeOf(segs[1..])
            then Lookup(n, shape)[m := e] else Lookup(n, shape)
    decreases |segs|, 0
  {
    if shape[0].Static? {
      var s := shape[0].text;
      var j := FindChild(n.children, s);
      InsertChild(n, segs, m, e, s);
      LookupStatic(n, shape);
      LookupStatic(Insert(n, segs, m, e), shape);
      if s == segs[0] {
        InsertUpdates(if j < |n.children| then n.children[j] else Fresh(s), segs[1..], m, e, shape[1..]);
        LookupFresh(s, shape[1..]);
      }
    }
  }

  datatype Registration = Registration(verb: Method, segs: seq<string>, entry: Entry)

  /** The tree after a list of registrations. */
  function Build(regs: seq<Registration>): Node {
    if regs == [] then Fresh("")
    else
      var r := regs[|regs| - 1];
      Insert(Build(regs[..|regs| - 1]), r.segs, r.verb, r.entry)
  }

  /** The latest registration of a shape and method. */
  function Latest(regs: seq<Registration>, shape: Shape, m: Method): Entry {
    if regs == [] then NO_ENTRY
    else
      var r := regs[|regs| - 1];
      if ShapeOf(r.segs) == shape && r.verb == m then r.entry
      else Latest(regs[..|regs| - 1], shape, m)
  }

  lemma {:induction false} TreeKeepsLatest(regs: seq<Registration>, shape: Shape, m: Method)
    ensures RouteOf(Lookup(Build(regs), shape), m) == Latest(regs, shape, m)
  {
    if regs == [] {
      LookupFresh("", shape);
    } else {
      var r := regs[|regs| - 1];
      InsertUpdates(Build(regs[..|regs| - 1]), r.segs, r.verb, r.entry, shape);
      TreeKeepsLatest(regs[..|regs| - 1], shape, m);
    }
  }

  // ---------------------------------------------------------------- the search

  /** The shape the backtracking search stops at. */
  function Search(n: Node, texts: seq<string>, m: Method): Option<Shape>
    decreases |texts|
  {
    if texts == [] then
      if RouteOf(n.routes, m).HasAnyHandler() then Some([]) else None
    else
      var viaStatic := SearchStatic(n, texts, m);
      if viaStatic.Some? then Some([Static(texts[0])] + viaStatic.value)
      else
        var viaParam := if n.param.Some? then Search(n.param.value, texts[1..], m) else None;
        if viaParam.Some? then Some([Param] + viaParam.value)
        else if n.wild.Some? && RouteOf(n.wild.value, m).HasAnyHandler() then Some([Wild])
        else None
  }

  function SearchStatic(n: Node, texts: seq<string>, m: Method): Option<Shape>
    requires texts != []
    decreases |texts|, 0
  {
    var i := FindChild(n.children, texts[0]);
    if i < |n.children| then Search(n.children[i], texts[1..], m) else None
  }

  /** Some route of any method answers these segments. */
  predicate Exists(n: Node, texts: seq<string>)
    decreases |texts|
  {
    if texts == [] then AnyHandler(n.routes)
    else
      var i := FindChild(n.children, texts[0]);
      || (i < |n.children| && Exists(n.children[i], texts[1..]))
      || (n.param.Some? && Exists(n.param.value, texts[1..]))
      || (n.wild.Some? && AnyHandler(n.wild.value))
  }

  /** A shape under which the tree has a handler for this request. */
  ghost predicate Candidate(n: Node, shape: Shape, texts: seq<string>, m: Method) {
    Matches(shape, texts) && RouteOf(Lookup(n, shape), m).HasAnyHandler()
  }

  /** The search finds a candidate, and no candidate is missed. */
  lemma {:induction false} SearchFinds(n: Node, texts: seq<string>, m: Method)
    ensures Search(n, texts, m).Some? ==> Candidate(n, Search(n, texts, m).value, texts, m)
    decreases |texts|
  {
    if texts != [] {
      var i := FindChild(n.children, texts[0]);
      if i < |n.children| {
        SearchFinds(n.children[i], texts[1..], m);
      }
      if n.param.Some? {
        SearchFinds(n.param.value, texts[1..], m);
      }
    }
  }

  lemma {:induction false} SearchIsBest(n: Node, texts: seq<string>, m: Method, shape: Shape)
    requires Candidate(n, shape, texts, m)
    ensures var found := Search(n, texts, m);
            found.Some? && (found.value == shape || Before(found.value, shape))
    decreases |texts|
  {
    if texts != [] {
      match shape[0] {
        case Static(s) =>
          var i := FindChild(n.children, texts[0]);
          SearchIsBest(n.children[i], texts[1..], m, shape[1..]);
        case Param =>
          SearchIsBest(n.param.value, texts[1..], m, shape[1..]);
        case Wild =>
          assert shape == [Wild];
      }
      assert shape == [shape[0]] + shape[1..];
    }
  }

  /** 404 or 405: a route exists exactly when some shape answers under some method. */
  lemma {:induction false} ExistsWitness(n: Node, texts: seq<string>) returns (shape: Shape, m: Method)
    requires Exists(n, texts)
    ensures Candidate(n, shape, texts, m)
    decreases |texts|
  {
    if texts == [] {
      shape := [];
      m :| m in n.routes && n.routes[m].HasAnyHandler();
    } else {
      var i := FindChild(n.children, texts[0]);
      if i < |n.children| && Exists(n.children[i], texts[1..]) {
        var rest;
        rest, m := ExistsWitness(n.children[i], texts[1..]);
        shape := [Static(texts[0])] + rest;
      } else if n.param.Some? && Exists(n.param.value, texts[1..]) {
        var rest;
        rest, m := ExistsWitness(n.param.value, texts[1..]);
        shape := [Param] + rest;
      } else {
        shape := [Wild];
        m :| m in n.wild.value && n.wild.value[m].HasAnyHandler();
      }
    }
  }

  lemma {:induction false} CandidateExists(n: Node, texts: seq<string>, shape: Shape, m: Method)
    requires Candidate(n, shape, texts, m)
    ensures Exists(n, texts)
    decreases |texts|
  {
    if texts != [] {
      match shape[0] {
        case Static(_) =>
          CandidateExists(n.children[FindChild(n.children, texts[0])], texts[1..], shape[1..], m);
        case Param =>
          CandidateExists(n.param.value, texts[1..], shape[1..], m);
        case Wild =>
      }
    }
  }

  /** The Allow list of a 405 is that of the least specific shape with a handler of any method. */
  lemma {:induction false} ReportedIsLeastSpecific(n: Node, texts: seq<string>, other: Shape)
    requires Matches(other, texts) && AnyHandler(Lookup(n, other))
    ensures Reported(n, texts).Some?
    ensures var shape := ReportedShape(n, texts);
            && Matches(shape, texts) && Reported(n, texts) == Some(Lookup(n, shape)) && AnyHandler(Lookup(n, shape))
            && (other == shape || Before(other, shape))
    decreases |texts|
  {
    if texts != [] {
      assert other == [other[0]] + other[1..];
      match other[0] {
        case Static(_) =>
          ReportedIsLeastSpecific(n.children[FindChild(n.children, texts[0])], texts[1..], other[1..]);
        case Param =>
          ReportedIsLeastSpecific(n.param.value, texts[1..], other[1..]);
        case Wild =>
      }
      if (n.wild.None? || !AnyHandler(n.wild.value)) && n.param.Some? && Reported(n.param.value, texts[1..]).Some? {
        ReportedWitness(n.param.value, texts[1..]);
      }
    }
  }

  lemma {:induction false} ReportedWitness(n: Node, texts: seq<string>)
    requires Reported(n, texts).Some?
    ensures var shape := ReportedShape(n, texts);
            Matches(shape, texts) && Reported(n, texts) == Some(Lookup(n, shape)) && AnyHandler(Lookup(n, shape))
    decreases |texts|
  {
    if texts != [] && (n.wild.None? || !AnyHandler(n.wild.value)) {
      if n.param.Some? && Reported(n.param.value, texts[1..]).Some? {
        ReportedWitness(n.param.value, texts[1..]);
      } else {
        ReportedWitness(n.children[FindChild(n.children, texts[0])], texts[1..]);
      }
    }
  }

  function ReportedShape(n: Node, texts: seq<string>): Shape
    decreases |texts|
  {
    if texts == [] then []
    else if n.wild.Some? && AnyHandler(n.wild.value) then [Wild]
    else if n.param.Some? && Reported(n.param.value, texts[1..]).Some?
    then [Param] + ReportedShape(n.param.value, texts[1..])
    else
      var i := FindChild(n.children, texts[0]);
      if i < |n.children| then [Static(texts[0])] + ReportedShape(n.children[i], texts[1..]) else []
  }

  // ---------------------------------------------------------------- path segments

  /** A segment as a view of the path; the one appended for a trailing slash is a default view. */
  datatype View = At(off: nat, len: nat) | Default

  function NextSlash(path: string, i: nat): (j: nat)
    requires i <= |path|
    ensures i <= j <= |path|
    decreases |path| - i
  {
    if i == |path| || path[i] == '/' then i else NextSlash(path, i + 1)
  }

  lemma {:induction false} NextSlashIs(path: string, i: nat, j: nat)
    requires i <= |path| && j == NextSlash(path, i)
    ensures j < |path| ==> path[j] == '/'
    ensures forall k :: i <= k < j ==> path[k] != '/'
    decreases |path| - i
  {
    if i < |path| && path[i] != '/' {
      NextSlashIs(path, i + 1, j);
    }
  }

  /** The maximal runs without a slash, from position `i` on. */
  function Runs(path: string, i: nat): seq<View>
    requires i <= |path|
    decreases |path| - i
  {
    if i == |path| then []
    else
      var j := NextSlash(path, i);
      if j == |path| then [At(i, j - i)] else Led(i, j, Runs(path, j + 1))
  }

  /** The stretch from `i` to `j`, unless it is empty, before `rest`. */
  function Led(i: nat, j: nat, rest: seq<View>): seq<View>
    requires i <= j
  {
    if i < j then [At(i, j - i)] + rest else rest
  }

  /** What a request path is cut into. */
  function Views(path: string): seq<View> {
    Runs(path, 0) + if |path| > 1 && path[|path| - 1] == '/' then [Default] else []
  }

  function Text(path: string, v: View): string {
    if v.At? && v.off + v.len <= |path| then path[v.off..v.off + v.len] else ""
  }

  function Texts(path: string, views: seq<View>): (r: seq<string>)
    ensures |r| == |views|
  {
    if views == [] then [] else [Text(path, views[0])] + Texts(path, views[1..])
  }

  /** What has been found, followed by what is still to be found from `start` on. */
  ghost function Split(views: seq<View>, path: string, start: nat): seq<View>
    requires start <= |path|
  {
    views + Runs(path, start)
  }

  lemma SplitOne(path: string, start: nat, pos: nat, views: seq<View>)
    requires start < |path| && pos == NextSlash(path, start)
    ensures pos == |path| ==> Split(views, path, start) == views + [At(start, pos - start)]
    ensures pos < |path| && pos > start ==>
      Split(views, path, start) == Split(views + [At(start, pos - start)], path, pos + 1)
    ensures pos == start ==> Split(views, path, start) == Split(views, path, pos + 1)
  {
    var run := At(start, pos - start);
    if pos < |path| {
      var rest := Runs(path, pos + 1);
      assert Runs(path, start) == Led(start, pos, rest);
      assert views + ([run] + rest) == views + [run] + rest;
    }
  }

  lemma SplitBegins(path: string)
    ensures Split([], path, 0) == Runs(path, 0)
    ensures path != "" && path[0] == '/' ==> Split([], path, 1) == Runs(path, 0)
  {
    if path != "" && path[0] == '/' {
      SplitOne(path, 0, 0, []);
    }
  }

  lemma SplitEnds(path: string, views: seq<View>)
    ensures Split(views, path, |path|) == views
  {
  }

  /** The loop shared by `SplitPath` and `SplitPathView`. */
  method SplitRuns(path: string) returns (views: seq<View>)
    ensures views == Runs(path, 0)
  {
    views := [];
    var start := 0;
    ghost var all := Runs(path, 0);
    SplitBegins(path);
    if path != "" && path[0] == '/' {
      start := 1;
    }
    while start < |path|
      invariant 0 <= start <= |path|
      invariant Split(views, path, start) == all
    {
      var pos := NextSlash(path, start);
      SplitOne(path, start, pos, views);
      if pos == |path| {
        views := views + [At(start, pos - start)];
        return;
      }
      if pos > start {
        views := views + [At(start, pos - start)];
      }
      start := pos + 1;
    }
    SplitEnds(path, views);
  }

  method SplitPathView(path: string) returns (views: seq<View>)
    ensures views == Views(path)
  {
    views := SplitRuns(path);
    if |path| > 1 && path[|path| - 1] == '/' {
      views := views + [Default];
    }
  }

  method SplitPath(path: string) returns (segs: seq<string>)
    ensures segs == Texts(path, Runs(path, 0))
  {
    var views := SplitRuns(path);
    segs := Texts(path, views);
  }

  /** `v` is a non-empty stretch of the path without a slash, starting at `i` or later. */
  ghost predicate IsRun(path: string, v: View, i: nat) {
    && v.At? && v.len > 0 && i <= v.off && v.off + v.len <= |path|
    && forall k :: v.off <= k < v.off + v.len ==> path[k] != '/'
  }

  /** The runs are slash-free stretches in path order with a gap between any two; the last one
      ends the path unless a slash does. */
  ghost predicate RunsOk(path: string, runs: seq<View>, i: nat) {
    && (forall k :: 0 <= k < |runs| ==> IsRun(path, runs[k], i))
    && (forall k, l :: 0 <= k < l < |runs| && runs[k].At? && runs[l].At? ==> runs[k].off + runs[k].len < runs[l].off)
    && (i < |path| && path[|path| - 1] != '/' ==>
          runs != [] && runs[|runs| - 1].At? && runs[|runs| - 1].off + runs[|runs| - 1].len == |path|)
  }

  lemma {:induction false} RunsAreMaximal(path: string, i: nat, runs: seq<View>)
    requires i <= |path| && runs == Runs(path, i)
    ensures RunsOk(path, runs, i)
    decreases |path| - i
  {
    if i < |path| {
      var j := NextSlash(path, i);
      NextSlashIs(path, i, j);
      if j < |path| {
        var rest := Runs(path, j + 1);
        RunsAreMaximal(path, j + 1, rest);
        PrependRun(path, i, j, rest);
      } else {
        LastRun(path, i);
      }
    }
  }

  lemma LastRun(path: string, i: nat)
    requires i < |path| && forall k :: i <= k < |path| ==> path[k] != '/'
    ensures RunsOk(path, [At(i, |path| - i)], i)
  {
  }

  lemma PrependRun(path: string, i: nat, j: nat, rest: seq<View>)
    requires i <= j < |path| && path[j] == '/' && (forall k :: i <= k < j ==> path[k] != '/')
    requires RunsOk(path, rest, j + 1)
    ensures RunsOk(path, Led(i, j, rest), i)
  {
    var runs := Led(i, j, rest);
    forall k | 0 <= k < |runs|
      ensures IsRun(path, runs[k], i)
    {
      if k >= |runs| - |rest| {
        assert IsRun(path, rest[k - (|runs| - |rest|)], j + 1);
      }
    }
  }

  /** A run starts at `i` or after a slash, and ends at a slash or with the path. */
  lemma {:induction false} RunIsDelimited(path: string, i: nat, runs: seq<View>, k: nat)
    requires i <= |path| && runs == Runs(path, i) && k < |runs|
    ensures runs[k].At? && i <= runs[k].off && 0 < runs[k].len && runs[k].off + runs[k].len <= |path|
    ensures runs[k].off == i || path[runs[k].off - 1] == '/'
    ensures runs[k].off + runs[k].len == |path| || path[runs[k].off + runs[k].len] == '/'
    decreases |path| - i
  {
    var j := NextSlash(path, i);
    NextSlashIs(path, i, j);
    if j < |path| {
      var rest := Runs(path, j + 1);
      assert runs == Led(i, j, rest);
      var n := |runs| - |rest|;
      if k >= n {
        RunIsDelimited(path, j + 1, rest, k - n);
        assert runs[k] == rest[k - n];
      }
    }
  }

  /** One character further, there is one run less exactly if a run ends here. */
  lemma RunsNext(path: string, i: nat)
    requires i < |path|
    ensures |Runs(path, i)| == |Runs(path, i + 1)|
      + if path[i] != '/' && (i + 1 == |path| || path[i + 1] == '/') then 1 else 0
  {
  }

  /** The capacity estimate of the splitters is exact for request paths. */
  method EstimateSegmentCount(path: string) returns (count: nat)
    ensures count == |Views(path)|
  {
    if path == "" || path == "/" {
      assert path == "/" ==> NextSlash(path, 0) == 0 && Runs(path, 1) == [];
      return 0;
    }
    count := 0;
    var inSegment := false;
    for i := 0 to |path|
      invariant inSegment ==> i > 0 && path[i - 1] != '/'
      invariant count + |Runs(path, i)| == |Runs(path, 0)| + if inSegment && i < |path| && path[i] != '/' then 1 else 0
    {
      RunsNext(path, i);
      if path[i] == '/' {
        inSegment := false;
      } else if !inSegment {
        count := count + 1;
        inSegment := true;
      }
    }
    if |path| > 1 && path[|path| - 1] == '/' {
      count := count + 1;
    }
  }

  function WithoutSlashes(s: string): string {
    if s == "" then "" else (if s[0] == '/' then "" else [s[0]]) + WithoutSlashes(s[1..])
  }

  lemma {:induction false} WithoutSlashesAppend(a: string, b: string)
    ensures WithoutSlashes(a + b) == WithoutSlashes(a) + WithoutSlashes(b)
  {
    if a == "" {
      assert a + b == b;
    } else {
      assert (a + b)[1..] == a[1..] + b;
      WithoutSlashesAppend(a[1..], b);
    }
  }

  lemma {:induction false} WithoutSlashesSame(s: string)
    requires forall k :: 0 <= k < |s| ==> s[k] != '/'
    ensures WithoutSlashes(s) == s
  {
    if s != "" {
      WithoutSlashesSame(s[1..]);
      assert s == [s[0]] + s[1..];
    }
  }

  lemma FlattenTexts(path: string, v: View, rest: seq<View>)
    ensures Flatten(Texts(path, [v] + rest)) == Text(path, v) + Flatten(Texts(path, rest))
  {
    assert ([v] + rest)[1..] == rest;
    var texts := Texts(path, rest);
    assert ([Text(path, v)] + texts)[1..] == texts;
  }

  lemma StripRun(path: string, i: nat, j: nat)
    requires i <= j < |path| && path[j] == '/' && forall k :: i <= k < j ==> path[k] != '/'
    ensures WithoutSlashes(path[i..]) == path[i..j] + WithoutSlashes(path[j + 1..])
  {
    var rest := path[j + 1..];
    assert path[i..] == path[i..j] + ("/" + rest);
    WithoutSlashesAppend(path[i..j], "/" + rest);
    WithoutSlashesSame(path[i..j]);
    assert ("/" + rest)[1..] == rest;
  }

  lemma FlattenText(path: string, v: View)
    ensures Flatten(Texts(path, [v])) == Text(path, v)
  {
    assert [v][1..] == [];
    assert Texts(path, [v]) == [Text(path, v)];
    FlattenOne(Text(path, v));
  }

  lemma KeepTextLast(path: string, i: nat)
    requires i < |path| && forall k :: i <= k < |path| ==> path[k] != '/'
    ensures Flatten(Texts(path, [At(i, |path| - i)])) == WithoutSlashes(path[i..])
  {
    var last := path[i..];
    assert last == Text(path, At(i, |path| - i));
    FlattenText(path, At(i, |path| - i));
    WithoutSlashesSame(last);
  }

  lemma KeepTextStep(path: string, i: nat, j: nat, rest: seq<View>)
    requires i <= j < |path| && path[j] == '/' && forall k :: i <= k < j ==> path[k] != '/'
    requires Flatten(Texts(path, rest)) == WithoutSlashes(path[j + 1..])
    ensures Flatten(Texts(path, Led(i, j, rest))) == WithoutSlashes(path[i..])
  {
    StripRun(path, i, j);
    if i < j {
      FlattenTexts(path, At(i, j - i), rest);
      assert Text(path, At(i, j - i)) == path[i..j];
    } else {
      assert path[i..j] == "";
    }
  }

  /** Splitting drops the slashes and nothing else. */
  lemma {:induction false} RunsKeepText(path: string, i: nat, runs: seq<View>)
    requires i <= |path| && runs == Runs(path, i)
    ensures Flatten(Texts(path, runs)) == WithoutSlashes(path[i..])
    decreases |path| - i
  {
    if i < |path| {
      var j := NextSlash(path, i);
      NextSlashIs(path, i, j);
      if j == |path| {
        KeepTextLast(path, i);
      } else {
        var rest := Runs(path, j + 1);
        RunsKeepText(path, j + 1, rest);
        KeepTextStep(path, i, j, rest);
      }
    }
  }

  // ---------------------------------------------------------------- captures

  /** What a request captures under a name: a slice of the path, nothing (the default view), or
      the undefined range from a real segment to the default view. */
  datatype Capture = Slice(off: nat, len: nat) | Empty | Undefined

  function SegmentCapture(v: View): Capture {
    if v.At? then Slice(v.off, v.len) else Empty
  }

  /** From the start of `first` to the end of `last`, as the wildcard computes it. */
  function WildCapture(first: View, last: View): Capture {
    match (first, last)
    case (At(o, _), At(p, l)) => if o <= p + l then Slice(o, p + l - o) else Undefined
    case (Default, Default) => Empty
    case _ => Undefined
  }

  /** A wildcard captures the path from its first segment to the end, unless the path ends in a
      slash; then it is defined only on the final, empty segment. */
  lemma {:induction false} WildcardCapture(path: string, k: nat)
    requires k < |Views(path)|
    ensures var views := Views(path);
            var c := WildCapture(views[k], views[|views| - 1]);
            if path[|path| - 1] != '/'
            then views[k].At? && views[k].off <= |path| && c == Slice(views[k].off, |path| - views[k].off)
            else c == if k == |views| - 1 then Empty else Undefined
  {
    var runs := Runs(path, 0);
    RunsAreMaximal(path, 0, Runs(path, 0));
    if k < |runs| {
      assert IsRun(path, runs[k], 0);
      assert IsRun(path, runs[|runs| - 1], 0);
    }
  }

  /** The captures of a shape under a node, innermost names as the tree stores them. */
  function Captures(n: Node, shape: Shape, views: seq<View>): seq<(string, Capture)>
    decreases |shape|
  {
    if shape == [] || views == [] then []
    else match shape[0]
      case Static(s) =>
        var i := FindChild(n.children, s);
        if i < |n.children| then Captures(n.children[i], shape[1..], views[1..]) else []
      case Param =>
        if n.param.Some?
        then [(n.paramName, SegmentCapture(views[0]))] + Captures(n.param.value, shape[1..], views[1..])
        else []
      case Wild => [(n.wildName, WildCapture(views[0], views[|views| - 1]))]
  }

  datatype MatchResult = MatchResult(
    entry: Option<Entry>, params: seq<(string, Capture)>, pathExists: bool, allow: Option<Table>)

  /** The table whose methods an unsuccessful search reports: the least specific one it met. */
  function Reported(n: Node, texts: seq<string>): Option<Table>
    decreases |texts|
  {
    if texts == [] then if AnyHandler(n.routes) then Some(n.routes) else None
    else if n.wild.Some? && AnyHandler(n.wild.value) then n.wild
    else
      var viaParam := if n.param.Some? then Reported(n.param.value, texts[1..]) else None;
      if viaParam.Some? then viaParam
      else
        var i := FindChild(n.children, texts[0]);
        if i < |n.children| then Reported(n.children[i], texts[1..]) else None
  }

  /** The result of a search that stopped at `shape`. */
  function Hit(n: Node, shape: Shape, views: seq<View>, m: Method, params: seq<(string, Capture)>): MatchResult {
    var t := Lookup(n, shape);
    MatchResult(Some(RouteOf(t, m)), params + Captures(n, shape, views), true, Some(t))
  }

  /** The result of a search that found no handler for the method. */
  function Miss(result: MatchResult, exists_: bool, reported: Option<Table>): MatchResult {
    MatchResult(None, result.params, result.pathExists || exists_,
                if reported.Some? then reported else result.allow)
  }

  /** `MatchNode`: recursion that writes `result` and pushes and pops `params`. It ends with the
      entry the search finds and that entry's captures after the ones already pushed; when
      nothing is found the parameter stack is restored. */
  method MatchNode(path: string, n: Node, views: seq<View>, index: nat, m: Method,
                   result0: MatchResult, params0: seq<(string, Capture)>)
    returns (result: MatchResult, params: seq<(string, Capture)>)
    requires index <= |views| && result0.entry.None?
    ensures var rest := views[index..];
            var texts := Texts(path, rest);
            var found := Search(n, texts, m);
            && result == (if found.Some? then Hit(n, found.value, rest, m, params0)
                          else Miss(result0, Exists(n, texts), Reported(n, texts)))
            && (found.None? ==> params == params0)
    decreases |views| - index, 1
  {
    if index >= |views| {
      result, params := MatchLeaf(n, m, result0, params0), params0;
      return;
    }
    result, params := MatchSegment(path, n, views, index, m, result0, params0);
  }

  /** Static child, then parameter child, then wildcard. */
  method MatchSegment(path: string, n: Node, views: seq<View>, index: nat, m: Method,
                      result0: MatchResult, params0: seq<(string, Capture)>)
    returns (result: MatchResult, params: seq<(string, Capture)>)
    requires index < |views| && result0.entry.None?
    ensures var rest := views[index..];
            var texts := Texts(path, rest);
            var found := Search(n, texts, m);
            && result == (if found.Some? then Hit(n, found.value, rest, m, params0)
                          else Miss(result0, Exists(n, texts), Reported(n, texts)))
            && (found.None? ==> params == params0)
    decreases |views| - index, 0, 2
  {
    assert Texts(path, views[index..]) != [];
    result, params := MatchStatic(path, n, views, index, m, result0, params0);
    if result.entry.None? {
      SearchCases(n, Texts(path, views[index..]), m, result0);
      result, params := MatchDynamic(path, n, views, index, m, result, params);
    }
  }

  /** What a search reports when no static child matched. */
  lemma SearchCases(n: Node, texts: seq<string>, m: Method, result: MatchResult)
    requires texts != [] && SearchStatic(n, texts, m).None? && result.entry.None?
    ensures var found := if n.param.Some? then Search(n.param.value, texts[1..], m) else None;
            var i := FindChild(n.children, texts[0]);
            var wild := if n.wild.Some? && AnyHandler(n.wild.value) then n.wild else None;
            var first := if i < |n.children|
                         then Miss(result, Exists(n.children[i], texts[1..]), Reported(n.children[i], texts[1..]))
                         else result;
            var second := if n.param.Some?
                          then Miss(first, Exists(n.param.value, texts[1..]), Reported(n.param.value, texts[1..]))
                          else first;
            && Search(n, texts, m) == (if found.Some? then Some([Param] + found.value)
                                       else if n.wild.Some? && RouteOf(n.wild.value, m).HasAnyHandler()
                                       then Some([Wild]) else None)
            && Miss(second, wild.Some?, wild) == Miss(result, Exists(n, texts), Reported(n, texts))
  {
  }

  /** The parameter child and the wildcard, after no static child matched. */
  method MatchDynamic(path: string, n: Node, views: seq<View>, index: nat, m: Method,
                      result0: MatchResult, params0: seq<(string, Capture)>)
    returns (result: MatchResult, params: seq<(string, Capture)>)
    requires index < |views| && result0.entry.None?
    ensures var rest := views[index..];
            var texts := Texts(path, rest)[1..];
            var found := if n.param.Some? then Search(n.param.value, texts, m) else None;
            var wild := if n.wild.Some? && AnyHandler(n.wild.value) then n.wild else None;
            var missed := if n.param.Some?
                          then Miss(result0, Exists(n.param.value, texts), Reported(n.param.value, texts))
                          else result0;
            var hit := n.wild.Some? && RouteOf(n.wild.value, m).HasAnyHandler();
            && result == (if found.Some? then Hit(n, [Param] + found.value, rest, m, params0)
                          else if hit then Hit(n, [Wild], rest, m, params0)
                          else Miss(missed, wild.Some?, wild))
            && (found.None? && !hit ==> params == params0)
    decreases |views| - index, 0, 1
  {
    result, params := result0, params0;
    if n.param.Some? {
      result, params := MatchParam(path, n, views, index, m, result, params);
      if result.entry.Some? {
        return;
      }
    }
    if n.wild.Some? {
      result, params := MatchWild(n, views, index, m, result, params);
    }
  }

  /** All segments are used up. */
  function MatchLeaf(n: Node, m: Method, result: MatchResult, params: seq<(string, Capture)>): (r: MatchResult)
    requires result.entry.None?
    ensures r == if Search(n, [], m).Some? then Hit(n, [], [], m, params) else Miss(result, Exists(n, []), Reported(n, []))
  {
    var route := RouteOf(n.routes, m);
    if route.HasAnyHandler() then MatchResult(Some(route), params, true, Some(n.routes))
    else if AnyHandler(n.routes) then result.(pathExists := true, allow := Some(n.routes))
    else result
  }

  /** The static child with the segment's text, if there is one. */
  method MatchStatic(path: string, n: Node, views: seq<View>, index: nat, m: Method,
                     result0: MatchResult, params0: seq<(string, Capture)>)
    returns (result: MatchResult, params: seq<(string, Capture)>)
    requires index < |views| && result0.entry.None?
    ensures var rest := views[index..];
            var texts := Texts(path, rest);
            var i := FindChild(n.children, texts[0]);
            var found := SearchStatic(n, texts, m);
            && result == (if found.Some? then Hit(n, [Static(texts[0])] + found.value, rest, m, params0)
                          else if i < |n.children|
                          then Miss(result0, Exists(n.children[i], texts[1..]), Reported(n.children[i], texts[1..]))
                          else result0)
            && (found.None? ==> params == params0)
    decreases |views| - index, 0, 0
  {
    result, params := result0, params0;
    ghost var rest := views[index..];
    assert rest[1..] == views[index + 1..];
    assert Texts(path, rest)[1..] == Texts(path, rest[1..]);
    var segment := Text(path, views[index]);
    var i := 0;
    while i < |n.children| && n.children[i].prefix != segment
      invariant 0 <= i <= |n.children|
      invariant forall j :: 0 <= j < i ==> n.children[j].prefix != segment
    {
      i := i + 1;
    }
    FindChildIs(n.children, segment, i);
    if i < |n.children| {
      result, params := MatchNode(path, n.children[i], views, index + 1, m, result, params);
    }
  }

  method MatchParam(path: string, n: Node, views: seq<View>, index: nat, m: Method,
                    result0: MatchResult, params0: seq<(string, Capture)>)
    returns (result: MatchResult, params: seq<(string, Capture)>)
    requires index < |views| && result0.entry.None? && n.param.Some?
    ensures var rest := views[index..];
            var texts := Texts(path, rest);
            var found := Search(n.param.value, texts[1..], m);
            && result == (if found.Some? then Hit(n, [Param] + found.value, rest, m, params0)
                          else Miss(result0, Exists(n.param.value, texts[1..]), Reported(n.param.value, texts[1..])))
            && (found.None? ==> params == params0)
    decreases |views| - index, 0, 0
  {
    ghost var rest := views[index..];
    assert rest[1..] == views[index + 1..];
    assert Texts(path, rest)[1..] == Texts(path, rest[1..]);
    var own := (n.paramName, SegmentCapture(views[index]));
    params := params0 + [own];
    result, params := MatchNode(path, n.param.value, views, index + 1, m, result0, params);
    if result.entry.Some? {
      ghost var found := Search(n.param.value, Texts(path, rest[1..]), m);
      HitParam(n, found.value, rest, m, params0);
      return;
    }
    params := params[..|params| - 1];
  }

  lemma HitParam(n: Node, shape: Shape, views: seq<View>, m: Method, params: seq<(string, Capture)>)
    requires n.param.Some? && views != []
    ensures Hit(n.param.value, shape, views[1..], m, params + [(n.paramName, SegmentCapture(views[0]))])
         == Hit(n, [Param] + shape, views, m, params)
  {
    var own := (n.paramName, SegmentCapture(views[0]));
    assert ([Param] + shape)[1..] == shape;
    var deeper := Captures(n.param.value, shape, views[1..]);
    assert params + ([own] + deeper) == (params + [own]) + deeper;
  }

  method MatchWild(n: Node, views: seq<View>, index: nat, m: Method,
                   result0: MatchResult, params0: seq<(string, Capture)>)
    returns (result: MatchResult, params: seq<(string, Capture)>)
    requires index < |views| && result0.entry.None? && n.wild.Some?
    ensures var hit := RouteOf(n.wild.value, m).HasAnyHandler();
            && result == (if hit then Hit(n, [Wild], views[index..], m, params0)
                          else Miss(result0, AnyHandler(n.wild.value), if AnyHandler(n.wild.value) then n.wild else None))
            && (!hit ==> params == params0)
  {
    result, params := result0, params0;
    var capture := WildCapture(views[index], views[|views| - 1]);
    var route := RouteOf(n.wild.value, m);
    if route.HasAnyHandler() {
      params := params + [(n.wildName, capture)];
      result := MatchResult(Some(route), params, true, n.wild);
    } else if AnyHandler(n.wild.value) {
      result := result.(pathExists := true, allow := n.wild);
    }
  }

  // ---------------------------------------------------------------- names

  function SegOf(s: string): Seg {
    if IsWild(s) then Wild else if IsParam(s) then Param else Static(s)
  }

  /** The name a registered path gives to the last segment of `shape`, if its shape starts so. */
  function NameIn(segs: seq<string>, shape: Shape): Option<string>
    decreases |shape|
  {
    if shape == [] || segs == [] || shape[0] != SegOf(segs[0]) then None
    else if |shape| == 1 then if shape[0].Static? then None else Some(segs[0][1..])
    else if shape[0] == Wild then None
    else NameIn(segs[1..], shape[1..])
  }

  /** The earliest registration that names a parameter or wildcard position keeps naming it. */
  function FirstName(regs: seq<Registration>, shape: Shape): Option<string> {
    if regs == [] then None
    else
      var earlier := FirstName(regs[..|regs| - 1], shape);
      if earlier.Some? then earlier else NameIn(regs[|regs| - 1].segs, shape)
  }

  function NameAt(n: Node, shape: Shape): Option<string>
    decreases |shape|
  {
    if shape == [] then None
    else match shape[0]
      case Static(s) =>
        var i := FindChild(n.children, s);
        if i < |n.children| then NameAt(n.children[i], shape[1..]) else None
      case Param =>
        if n.param.None? then None
        else if |shape| == 1 then Some(n.paramName) else NameAt(n.param.value, shape[1..])
      case Wild => if n.wild.Some? && |shape| == 1 then Some(n.wildName) else None
  }

  lemma {:induction false} NameAtFresh(prefix: string, shape: Shape)
    ensures NameAt(Fresh(prefix), shape) == None
  {
  }

  lemma {:induction false} InsertNames(n: Node, segs: seq<string>, m: Method, e: Entry, shape: Shape)
    ensures NameAt(Insert(n, segs, m, e), shape)
         == if NameAt(n, shape).Some? then NameAt(n, shape) else NameIn(segs, shape)
    decreases |segs|
  {
    if segs != [] && shape != [] && !IsWild(segs[0]) {
      if IsParam(segs[0]) {
        if shape[0] == Param && |shape| > 1 {
          InsertNames(if n.param.Some? then n.param.value else Fresh(""), segs[1..], m, e, shape[1..]);
          NameAtFresh("", shape[1..]);
        }
      } else {
        InsertNamesStatic(n, segs, m, e, shape);
      }
    }
  }

  lemma {:induction false} InsertNamesStatic(n: Node, segs: seq<string>, m: Method, e: Entry, shape: Shape)
    requires segs != [] && shape != [] && !IsWild(segs[0]) && !IsParam(segs[0])
    ensures NameAt(Insert(n, segs, m, e), shape)
         == if NameAt(n, shape).Some? then NameAt(n, shape) else NameIn(segs, shape)
    decreases |segs|, 0
  {
    if shape[0].Static? {
      var s := shape[0].text;
      var j := FindChild(n.children, s);
      InsertChild(n, segs, m, e, s);
      if s == segs[0] {
        InsertNames(if j < |n.children| then n.children[j] else Fresh(s), segs[1..], m, e, shape[1..]);
        NameAtFresh(s, shape[1..]);
      }
    }
  }

  lemma {:induction false} TreeKeepsFirstName(regs: seq<Registration>, shape: Shape)
    ensures NameAt(Build(regs), shape) == FirstName(regs, shape)
  {
    if regs == [] {
      NameAtFresh("", shape);
    } else {
      var r := regs[|regs| - 1];
      InsertNames(Build(regs[..|regs| - 1]), r.segs, r.verb, r.entry, shape);
      TreeKeepsFirstName(regs[..|regs| - 1], shape);
    }
  }

  function OrEmpty(name: Option<string>): string {
    if name.Some? then name.value else ""
  }

  /** The captures of a request under a shape, named by the registrations. */
  function FlatCaptures(regs: seq<Registration>, before: Shape, shape: Shape, views: seq<View>): seq<(string, Capture)>
    decreases |shape|
  {
    if shape == [] || views == [] then []
    else
      var upTo := before + [shape[0]];
      match shape[0]
      case Static(_) => FlatCaptures(regs, upTo, shape[1..], views[1..])
      case Param =>
        [(OrEmpty(FirstName(regs, upTo)), SegmentCapture(views[0]))] + FlatCaptures(regs, upTo, shape[1..], views[1..])
      case Wild => [(OrEmpty(FirstName(regs, upTo)), WildCapture(views[0], views[|views| - 1]))]
  }

  lemma {:induction false} CapturesAreFlat(
    n: Node, regs: seq<Registration>, before: Shape, shape: Shape, views: seq<View>)
    requires forall sh :: sh != [] ==> NameAt(n, sh) == FirstName(regs, before + sh)
    requires Lookup(n, shape) != map[]
    ensures Captures(n, shape, views) == FlatCaptures(regs, before, shape, views)
    decreases |shape|
  {
    if shape != [] && views != [] {
      var upTo := before + [shape[0]];
      assert NameAt(n, [shape[0]]) == FirstName(regs, upTo);
      if shape[0] != Wild {
        var child := if shape[0] == Param then n.param.value else n.children[FindChild(n.children, shape[0].text)];
        forall sh | sh != []
          ensures NameAt(child, sh) == FirstName(regs, upTo + sh)
        {
          assert ([shape[0]] + sh)[1..] == sh;
          assert NameAt(n, [shape[0]] + sh) == NameAt(child, sh);
          assert before + ([shape[0]] + sh) == upTo + sh;
        }
        CapturesAreFlat(child, regs, upTo, shape[1..], views[1..]);
      }
    }
  }

  /** How many names there are in the first `k` segments. */
  ghost function NamesBefore(shape: Shape, k: nat): nat
    requires k <= |shape|
  {
    if k == 0 then 0 else (if shape[0].Static? then 0 else 1) + NamesBefore(shape[1..], k - 1)
  }

  /** What the name at position `k` captures, and where that is among the captures. */
  lemma {:induction false} CaptureAt(regs: seq<Registration>, before: Shape, shape: Shape, views: seq<View>,
                                     texts: seq<string>, k: nat)
    requires Matches(shape, texts) && |texts| == |views| && k < |shape| && !shape[k].Static?
    ensures k < |views|
    ensures var captures := FlatCaptures(regs, before, shape, views);
      var i := NamesBefore(shape, k);
      && i < |captures|
      && captures[i] == (OrEmpty(FirstName(regs, before + shape[..k + 1])),
                         if shape[k].Param? then SegmentCapture(views[k]) else WildCapture(views[k], views[|views| - 1]))
    decreases k
  {
    var upTo := before + [shape[0]];
    if k == 0 {
      assert shape[..1] == [shape[0]];
    } else {
      CaptureAt(regs, upTo, shape[1..], views[1..], texts[1..], k - 1);
      assert before + shape[..k + 1] == upTo + shape[1..][..k];
      assert views[1..][|views| - 2] == views[|views| - 1];
    }
  }

  lemma {:induction false} CaptureCount(regs: seq<Registration>, before: Shape, shape: Shape, views: seq<View>,
                                        texts: seq<string>)
    requires Matches(shape, texts) && |texts| == |views|
    ensures |FlatCaptures(regs, before, shape, views)| == NamesBefore(shape, |shape|)
    decreases |shape|
  {
    if shape != [] && shape[0] != Wild {
      CaptureCount(regs, before + [shape[0]], shape[1..], views[1..], texts[1..]);
    } else if shape != [] {
      assert NamesBefore(shape[1..], 0) == 0;
    }
  }

  lemma {:induction false} TextsAt(path: string, views: seq<View>, k: nat)
    requires k < |views|
    ensures Texts(path, views)[k] == Text(path, views[k])
  {
    if k > 0 {
      TextsAt(path, views[1..], k - 1);
    }
  }

  /** `c` is segment number `k` of the path: the slice between two slashes, or nothing for the final
      segment of a path that ends in a slash. */
  ghost predicate IsSegment(path: string, k: nat, c: Capture) {
    var views := Views(path);
    && k < |views|
    && if k == |views| - 1 && path[|path| - 1] == '/' then c == Empty && Texts(path, views)[k] == ""
       else
         && c.Slice? && 0 < c.len && c.off + c.len <= |path|
         && views[k].At? && c.off == views[k].off
         && path[c.off..c.off + c.len] == Texts(path, views)[k]
         && (forall j :: c.off <= j < c.off + c.len ==> path[j] != '/')
         && (c.off == 0 || path[c.off - 1] == '/')
         && (c.off + c.len == |path| || path[c.off + c.len] == '/')
  }

  lemma SegmentIs(path: string, k: nat)
    requires k < |Views(path)|
    ensures IsSegment(path, k, SegmentCapture(Views(path)[k]))
  {
    var runs := Runs(path, 0);
    RunsAreMaximal(path, 0, runs);
    TextsAt(path, Views(path), k);
    if k < |runs| {
      assert Views(path)[k] == runs[k] && IsRun(path, runs[k], 0);
      RunIsDelimited(path, 0, runs, k);
      SlashEndsNone(path, runs, k);
    }
  }

  /** The last of the runs is not the last of the views if the path ends in a slash. */
  lemma SlashEndsNone(path: string, runs: seq<View>, k: nat)
    requires runs == Runs(path, 0) && k < |runs| && IsRun(path, runs[k], 0)
    ensures k == |Views(path)| - 1 ==> path[|path| - 1] != '/'
  {
    assert |path| == 1 ==> runs[k].off == 0;
  }

  /** `c` is the path from segment `k` to the end, if the path does not end in a slash; otherwise it is
      nothing for the final segment, and undefined before. */
  ghost predicate IsTail(path: string, k: nat, c: Capture) {
    var views := Views(path);
    && k < |views|
    && if path[|path| - 1] == '/' then c == if k == |views| - 1 then Empty else Undefined
       else views[k].At? && views[k].off <= |path| && c == Slice(views[k].off, |path| - views[k].off)
  }

  /** Every name of the shape has its capture, in order. */
  ghost predicate Captured(regs: seq<Registration>, shape: Shape, path: string, params: seq<(string, Capture)>) {
    && |params| == NamesBefore(shape, |shape|)
    && forall k: nat | k < |shape| && !shape[k].Static? ::
         var i := NamesBefore(shape, k);
         && i < |params|
         && params[i].0 == OrEmpty(FirstName(regs, shape[..k + 1]))
         && (if shape[k].Param? then IsSegment(path, k, params[i].1) else IsTail(path, k, params[i].1))
  }

  /** The captures of a shape that matches are the segments and the tail of the path it names. */
  lemma CapturesAreSegments(regs: seq<Registration>, shape: Shape, path: string)
    requires Matches(shape, Texts(path, Views(path)))
    ensures Captured(regs, shape, path, FlatCaptures(regs, [], shape, Views(path)))
  {
    var views := Views(path);
    CaptureCount(regs, [], shape, views, Texts(path, views));
    forall k: nat | k < |shape| && !shape[k].Static?
      ensures var params, i := FlatCaptures(regs, [], shape, views), NamesBefore(shape, k);
        && i < |params|
        && params[i].0 == OrEmpty(FirstName(regs, shape[..k + 1]))
        && (if shape[k].Param? then IsSegment(path, k, params[i].1) else IsTail(path, k, params[i].1))
    {
      CaptureAt(regs, [], shape, views, Texts(path, views), k);
      assert [] + shape[..k + 1] == shape[..k + 1];
      SegmentIs(path, k);
      WildcardCapture(path, k);
    }
  }

  /** A registered segment is a parameter or a wildcard if it is a name after a colon or an asterisk. */
  lemma {:induction false} KindOfSegment(segs: seq<string>, k: nat)
    requires k < |ShapeOf(segs)|
    ensures k < |segs|
    ensures ShapeOf(segs)[k].Param? <==> exists name: string :: name != "" && segs[k] == ":" + name
    ensures ShapeOf(segs)[k].Wild? <==> exists name: string :: name != "" && segs[k] == "*" + name
    ensures ShapeOf(segs)[k].Static? ==> ShapeOf(segs)[k].text == segs[k]
    ensures ShapeOf(segs)[k].Wild? ==> |ShapeOf(segs)| == k + 1
    decreases k
  {
    if k > 0 {
      KindOfSegment(segs[1..], k - 1);
    } else {
      var s := segs[0];
      if |s| > 1 {
        assert s == [s[0]] + s[1..];
      }
    }
  }

  // ---------------------------------------------------------------- the tree and its flat meaning

  /** A registered shape that answers this request. */
  ghost predicate Answers(regs: seq<Registration>, shape: Shape, texts: seq<string>, m: Method) {
    Matches(shape, texts) && Latest(regs, shape, m).HasAnyHandler()
  }

  /** Some registered shape answers the path under some method. */
  ghost predicate Answered(regs: seq<Registration>, texts: seq<string>) {
    exists shape, m :: Answers(regs, shape, texts, m)
  }

  /** The registered shape that a request selects. */
  ghost predicate Selected(regs: seq<Registration>, shape: Shape, texts: seq<string>, m: Method) {
    && Answers(regs, shape, texts, m)
    && forall other :: Answers(regs, other, texts, m) ==> other == shape || Before(shape, other)
  }

  lemma {:induction false} SearchSelects(regs: seq<Registration>, texts: seq<string>, m: Method)
    ensures var found := Search(Build(regs), texts, m);
            if found.Some? then Selected(regs, found.value, texts, m)
            else forall shape :: !Answers(regs, shape, texts, m)
  {
    var n := Build(regs);
    forall shape
      ensures Answers(regs, shape, texts, m) <==> Candidate(n, shape, texts, m)
    {
      TreeKeepsLatest(regs, shape, m);
    }
    SearchFinds(n, texts, m);
    forall shape | Candidate(n, shape, texts, m)
      ensures var found := Search(n, texts, m); found.Some? && (found.value == shape || Before(found.value, shape))
    {
      SearchIsBest(n, texts, m, shape);
    }
  }

  lemma {:induction false} ExistsMeansAnswered(regs: seq<Registration>, texts: seq<string>)
    ensures Exists(Build(regs), texts) <==> Answered(regs, texts)
  {
    var n := Build(regs);
    if Exists(n, texts) {
      var shape, m := ExistsWitness(n, texts);
      TreeKeepsLatest(regs, shape, m);
      assert Answers(regs, shape, texts, m);
    }
    forall shape, m | Answers(regs, shape, texts, m)
      ensures Exists(n, texts)
    {
      TreeKeepsLatest(regs, shape, m);
      CandidateExists(n, texts, shape, m);
    }
  }

  /** A registered shape that matches and has a handler of some method. */
  ghost predicate Known(regs: seq<Registration>, shape: Shape, texts: seq<string>) {
    Matches(shape, texts) && exists m :: Latest(regs, shape, m).HasAnyHandler()
  }

  /** The handlers of the least specific of the shapes known for these segments. */
  ghost predicate Allowed(regs: seq<Registration>, texts: seq<string>, shape: Shape, t: Table) {
    && Known(regs, shape, texts)
    && (forall other :: Known(regs, other, texts) ==> other == shape || Before(other, shape))
    && forall m :: RouteOf(t, m) == Latest(regs, shape, m)
  }

  lemma KnownMeansHandler(regs: seq<Registration>, shape: Shape, texts: seq<string>)
    ensures Known(regs, shape, texts) <==> Matches(shape, texts) && AnyHandler(Lookup(Build(regs), shape))
  {
    forall m
      ensures RouteOf(Lookup(Build(regs), shape), m) == Latest(regs, shape, m)
    {
      TreeKeepsLatest(regs, shape, m);
    }
    var t := Lookup(Build(regs), shape);
    if AnyHandler(t) {
      var m :| m in t && t[m].HasAnyHandler();
      assert Latest(regs, shape, m).HasAnyHandler();
    }
  }

  /** With a route for another method only, the table reported is that of the least specific shape
      known; with none, there is no table. */
  lemma {:induction false} ReportedIsFlat(regs: seq<Registration>, texts: seq<string>)
    ensures var t := Reported(Build(regs), texts);
            && (t.Some? <==> Exists(Build(regs), texts))
            && (t.Some? ==> Allowed(regs, texts, ReportedShape(Build(regs), texts), t.value))
  {
    var n := Build(regs);
    if Exists(n, texts) {
      var shape, m := ExistsWitness(n, texts);
      ReportedIsLeastSpecific(n, texts, shape);
    }
    if Reported(n, texts).Some? {
      ReportedWitness(n, texts);
      var shape := ReportedShape(n, texts);
      KnownMeansHandler(regs, shape, texts);
      var m :| m in Lookup(n, shape) && Lookup(n, shape)[m].HasAnyHandler();
      CandidateExists(n, texts, shape, m);
      forall other | Known(regs, other, texts)
        ensures other == shape || Before(other, shape)
      {
        KnownMeansHandler(regs, other, texts);
        ReportedIsLeastSpecific(n, texts, other);
      }
      forall m
        ensures RouteOf(Lookup(n, shape), m) == Latest(regs, shape, m)
      {
        TreeKeepsLatest(regs, shape, m);
      }
    }
  }

  lemma FlatResult(regs: seq<Registration>, shape: Shape, views: seq<View>, m: Method)
    requires Latest(regs, shape, m).HasAnyHandler()
    ensures RouteOf(Lookup(Build(regs), shape), m) == Latest(regs, shape, m)
    ensures Captures(Build(regs), shape, views) == FlatCaptures(regs, [], shape, views)
  {
    TreeKeepsLatest(regs, shape, m);
    forall sh: Shape | sh != []
      ensures NameAt(Build(regs), sh) == FirstName(regs, [] + sh)
    {
      TreeKeepsFirstName(regs, sh);
      assert [] + sh == sh;
    }
    CapturesAreFlat(Build(regs), regs, [], shape, views);
  }

  /** The root path is looked up without a search. */
  function MatchRoot(n: Node, m: Method): (r: MatchResult)
    ensures r.entry == if Search(n, [], m).Some? then Some(RouteOf(Lookup(n, []), m)) else None
    ensures r.params == [] && r.pathExists == Exists(n, [])
    ensures r.entry.None? ==> r.allow == Reported(n, [])
  {
    var route := RouteOf(n.routes, m);
    if route.HasAnyHandler() then MatchResult(Some(route), [], true, None)
    else if AnyHandler(n.routes) then MatchResult(None, [], true, Some(n.routes))
    else MatchResult(None, [], false, None)
  }

  /** A path that is answered exists. */
  lemma SearchExists(n: Node, texts: seq<string>, m: Method)
    requires Search(n, texts, m).Some?
    ensures Exists(n, texts)
  {
    SearchFinds(n, texts, m);
    CandidateExists(n, texts, Search(n, texts, m).value, m);
  }

  /** What a request is answered: the latest entry of the best registered shape that matches, with its
      captures; without one, whether another method would have been answered, and by what. */
  ghost predicate Answer(regs: seq<Registration>, path: string, m: Method, r: MatchResult) {
    var views := Views(path);
    var texts := Texts(path, views);
    && (r.entry.Some? ==>
          && r.pathExists
          && exists shape ::
               && Selected(regs, shape, texts, m)
               && r.entry == Some(Latest(regs, shape, m))
               && r.params == FlatCaptures(regs, [], shape, views)
               && Captured(regs, shape, path, r.params))
    && (r.entry.None? ==> r.params == [] && forall shape :: !Answers(regs, shape, texts, m))
    && (r.pathExists <==> Answered(regs, texts))
    && (r.entry.None? && r.pathExists ==>
          r.allow.Some? && exists shape :: Allowed(regs, texts, shape, r.allow.value))
  }

  lemma FoundIsAnswer(regs: seq<Registration>, path: string, m: Method, r: MatchResult)
    requires var texts := Texts(path, Views(path));
      var found := Search(Build(regs), texts, m);
      && found.Some? && r.entry == Some(RouteOf(Lookup(Build(regs), found.value), m)) && r.pathExists
      && r.params == Captures(Build(regs), found.value, Views(path))
    ensures Answer(regs, path, m, r)
  {
    var texts := Texts(path, Views(path));
    var shape := Search(Build(regs), texts, m).value;
    SearchSelects(regs, texts, m);
    SearchExists(Build(regs), texts, m);
    ExistsMeansAnswered(regs, texts);
    FlatResult(regs, shape, Views(path), m);
    CapturesAreSegments(regs, shape, path);
  }

  lemma MissIsAnswer(regs: seq<Registration>, path: string, m: Method, r: MatchResult)
    requires var texts := Texts(path, Views(path));
      && Search(Build(regs), texts, m).None? && r.entry.None? && r.params == []
      && r.pathExists == Exists(Build(regs), texts) && r.allow == Reported(Build(regs), texts)
    ensures Answer(regs, path, m, r)
  {
    var texts := Texts(path, Views(path));
    SearchSelects(regs, texts, m);
    ExistsMeansAnswered(regs, texts);
    ReportedIsFlat(regs, texts);
    if r.pathExists {
      assert Allowed(regs, texts, ReportedShape(Build(regs), texts), r.allow.value);
    }
  }

  class RadixTree {
    var root: Node
    ghost var regs: seq<Registration>

    ghost predicate Valid()
      reads this
    {
      root == Build(regs)
    }

    constructor ()
      ensures Valid() && regs == []
    {
      root, regs := Fresh(""), [];
    }

    method Register(m: Method, path: string, e: Entry)
      requires Valid()
      modifies this
      ensures Valid() && regs == old(regs) + [Registration(m, Texts(path, Runs(path, 0)), e)]
    {
      var segs := [];
      if path == "/" {
        assert NextSlash(path, 0) == 0 && Runs(path, 1) == [];
        root := root.(routes := root.routes[m := e]);
      } else {
        segs := SplitPath(path);
        root := Insert(root, segs, m, e);
      }
      regs := regs + [Registration(m, segs, e)];
      assert regs[..|regs| - 1] == old(regs);
    }

    /** The entry is the latest one of the best registered shape that matches, with its captures;
        without one, `pathExists` tells whether another method would have been answered. */
    method Match(m: Method, path: string) returns (r: MatchResult)
      requires Valid()
      ensures Answer(regs, path, m, r)
    {
      ghost var views := Views(path);
      ghost var texts := Texts(path, views);
      if path == "/" {
        assert NextSlash(path, 0) == 0 && Runs(path, 1) == [] && views == [] && texts == [];
        r := MatchRoot(root, m);
      } else {
        var segments := SplitPathView(path);
        assert segments[0..] == views;
        var params;
        r, params := MatchNode(path, root, segments, 0, m, MatchResult(None, [], false, None), []);
      }
      if Search(root, texts, m).Some? {
        FoundIsAnswer(regs, path, m, r);
      } else {
        MissIsAnswer(regs, path, m, r);
      }
    }
  }
}
