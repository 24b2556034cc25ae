/** Where the fields of a record are kept: each path leads back to the one value it was read from. */
module ExtraPaths {
  import opened Basics
  import opened Extra

  // ----- Descending into a record ----------------------------------------------------------

  /** The way from a record to a value inside it: which child to take, level by level. */
  type Route = seq<nat>

  function Width(node: Node): nat {
    match node
    case Mapping(entries) => |entries|
    case Listing(items) => |items|
    case _ => 0
  }

  function Child(node: Node, i: nat): (child: Node)
    requires i < Width(node)
    ensures child < node
  {
    match node
    case Mapping(entries) => entries[i].node
    case Listing(items) => items[i]
  }

  /** The value a route leads to, when it stays inside the record. */
  function Descend(node: Node, route: Route): Option<Node> {
    if route == [] then Some(node)
    else if route[0] >= Width(node) then None
    else Descend(Child(node, route[0]), route[1..])
  }

  /** One step of a route, as a reader of the record names it. */
  datatype Step = Key(key: Text) | Index(n: nat)

  function StepOf(node: Node, i: nat): Step
    requires i < Width(node)
  {
    match node
    case Mapping(entries) => Key(entries[i].key)
    case Listing(_) => Index(i)
  }

  /** The steps of a route. */
  function Steps(node: Node, route: Route): seq<Step>
    requires Descend(node, route).Some?
  {
    if route == [] then []
    else [StepOf(node, route[0])] + Steps(Child(node, route[0]), route[1..])
  }

  /** A route ends where there is no further down to go. */
  ghost predicate Ends(node: Node, route: Route) {
    var end := Descend(node, route);
    end.Some? && (end.value.Leaf? || end.value.Unreadable?)
  }

  // ----- Paths ---------------------------------------------------------------------------------

  /** A key is itself, an index its decimal digits. */
  function Written(step: Step): Text {
    match step
    case Key(key) => key
    case Index(n) => Decimal(n)
  }

  function Texts(steps: seq<Step>): seq<Text> {
    seq(|steps|, i requires 0 <= i < |steps| => Written(steps[i]))
  }

  /** Texts with one dot between each two. */
  function Dotted(texts: seq<Text>): Text {
    if texts == [] then []
    else if |texts| == 1 then texts[0]
    else texts[0] + [46] + Dotted(texts[1..])
  }

  /** The texts behind the empty ones at the front. */
  function Trimmed(texts: seq<Text>): seq<Text> {
    if texts != [] && texts[0] == [] then Trimmed(texts[1..]) else texts
  }

  /** Entering the steps one by one. */
  function Entered(path: Text, texts: seq<Text>): Text
    decreases |texts|
  {
    if texts == [] then path else Entered(Joined(path, texts[0]), texts[1..])
  }

  lemma {:induction false} EnteredBehind(path: Text, texts: seq<Text>)
    requires path != []
    ensures Entered(path, texts) == if texts == [] then path else path + [46] + Dotted(texts)
    decreases |texts|
  {
    if texts != [] {
      EnteredBehind(Joined(path, texts[0]), texts[1..]);
      if |texts| > 1 {
        assert path + [46] + texts[0] + [46] + Dotted(texts[1..]) == path + [46] + Dotted(texts);
      }
    }
  }

  /** The path of a value is its steps with one dot between each two, empty keys in front aside. */
  lemma {:induction false} EnteredIsDotted(texts: seq<Text>)
    ensures Entered([], texts) == Dotted(Trimmed(texts))
  {
    if texts != [] {
      if texts[0] == [] {
        EnteredIsDotted(texts[1..]);
      } else {
        assert [] + texts[0] == texts[0];
        EnteredBehind(texts[0], texts[1..]);
      }
    }
  }

  // ----- Every leaf, in order ------------------------------------------------------------------

  /** All routes to an end, in the order of a depth-first walk. */
  ghost function Routes(node: Node): seq<Route>
    decreases node, 1, 0
  {
    if node.Leaf? || node.Unreadable? then [[]] else RoutesTo(node, Width(node))
  }

  /** Those through the first children. */
  ghost function RoutesTo(node: Node, n: nat): seq<Route>
    requires n <= Width(node)
    decreases node, 0, n
  {
    if n == 0 then []
    else
      RoutesTo(node, n - 1) + Through(n - 1, Routes(Child(node, n - 1)))
  }

  ghost function Through(i: nat, routes: seq<Route>): seq<Route> {
    seq(|routes|, j requires 0 <= j < |routes| => [i] + routes[j])
  }

  /** A leaf is what its route leads to, under the path of its steps behind that of the record. */
  ghost predicate IsFoundAt(node: Node, path: Text, found: Found, route: Route) {
    && Ends(node, route)
    && match found
       case Leaf(field) =>
         && Descend(node, route) == Some(Node.Leaf(field.value))
         && field.path == Entered(path, Texts(Steps(node, route)))
       case Broken => Descend(node, route) == Some(Unreadable)
  }

  /** The leaves through the first children. */
  ghost function LeavesTo(node: Node, n: nat, path: Text): seq<Found>
    requires n <= Width(node)
  {
    match node
    case Mapping(entries) => EntryLeaves(entries[..n], path)
    case Listing(items) => ItemLeaves(items[..n], path)
    case _ => []
  }

  lemma LeavesNext(node: Node, n: nat, path: Text)
    requires n < Width(node)
    ensures LeavesTo(node, n + 1, path) ==
            LeavesTo(node, n, path) + Leaves(Child(node, n), Joined(path, Written(StepOf(node, n))))
  {
    match node
    case Mapping(entries) => assert entries[..n + 1][..n] == entries[..n];
    case Listing(items) => assert items[..n + 1][..n] == items[..n];
  }

  lemma AllLeaves(node: Node, path: Text)
    requires node.Mapping? || node.Listing?
    ensures LeavesTo(node, Width(node), path) == Leaves(node, path)
  {
    match node
    case Mapping(entries) => assert entries[..|entries|] == entries;
    case Listing(items) => assert items[..|items|] == items;
  }

  lemma FoundThrough(node: Node, path: Text, i: nat, found: Found, route: Route)
    requires i < Width(node)
    requires IsFoundAt(Child(node, i), Joined(path, Written(StepOf(node, i))), found, route)
    ensures IsFoundAt(node, path, found, [i] + route)
  {
    var longer := [i] + route;
    assert longer[1..] == route;
    var texts := Texts(Steps(node, longer));
    assert texts[1..] == Texts(Steps(Child(node, i), route));
  }

  /** Leaves and routes side by side. */
  ghost predicate AllFoundAt(node: Node, path: Text, leaves: seq<Found>, routes: seq<Route>) {
    && |leaves| == |routes|
    && forall j :: 0 <= j < |routes| ==> IsFoundAt(node, path, leaves[j], routes[j])
  }

  lemma AllFoundThrough(node: Node, path: Text, i: nat, leaves: seq<Found>, routes: seq<Route>)
    requires i < Width(node)
    requires AllFoundAt(Child(node, i), Joined(path, Written(StepOf(node, i))), leaves, routes)
    ensures AllFoundAt(node, path, leaves, Through(i, routes))
  {
    forall j | 0 <= j < |routes|
      ensures IsFoundAt(node, path, leaves[j], Through(i, routes)[j])
    {
      FoundThrough(node, path, i, leaves[j], routes[j]);
    }
  }

  lemma AllFoundJoined(node: Node, path: Text, a: seq<Found>, b: seq<Found>, c: seq<Route>, d: seq<Route>)
    requires AllFoundAt(node, path, a, c) && AllFoundAt(node, path, b, d)
    ensures AllFoundAt(node, path, a + b, c + d)
  {
  }

  lemma AllFoundNext(node: Node, path: Text, i: nat, before: seq<Found>, inner: seq<Found>,
                     ways: seq<Route>, further: seq<Route>)
    requires i < Width(node) && AllFoundAt(node, path, before, ways)
    requires AllFoundAt(Child(node, i), Joined(path, Written(StepOf(node, i))), inner, further)
    ensures AllFoundAt(node, path, before + inner, ways + Through(i, further))
  {
    AllFoundThrough(node, path, i, inner, further);
    AllFoundJoined(node, path, before, inner, ways, Through(i, further));
  }

  /** The leaves through the first children are found along the routes through them. */
  ghost predicate FoundTo(node: Node, n: nat, path: Text)
    requires n <= Width(node)
  {
    AllFoundAt(node, path, LeavesTo(node, n, path), RoutesTo(node, n))
  }

  /** All leaves of a child are found along its routes. */
  ghost predicate FoundIn(node: Node, i: nat, path: Text)
    requires i < Width(node)
  {
    var child, deeper := Child(node, i), Joined(path, Written(StepOf(node, i)));
    AllFoundAt(child, deeper, Leaves(child, deeper), Routes(child))
  }

  lemma FoundToNext(node: Node, n: nat, path: Text)
    requires n < Width(node) && FoundTo(node, n, path) && FoundIn(node, n, path)
    ensures FoundTo(node, n + 1, path)
  {
    var child, deeper := Child(node, n), Joined(path, Written(StepOf(node, n)));
    LeavesNext(node, n, path);
    AllFoundNext(node, path, n, LeavesTo(node, n, path), Leaves(child, deeper), RoutesTo(node, n), Routes(child));
  }

  lemma {:induction false} FoundToAll(node: Node, n: nat, path: Text)
    requires n <= Width(node) && forall i :: 0 <= i < n ==> FoundIn(node, i, path)
    ensures FoundTo(node, n, path)
  {
    if n > 0 {
      FoundToAll(node, n - 1, path);
      FoundToNext(node, n - 1, path);
    }
  }

  lemma {:induction false} FoundAtRoutes(node: Node, path: Text)
    ensures AllFoundAt(node, path, Leaves(node, path), Routes(node))
    decreases node
  {
    if node.Leaf? || node.Unreadable? {
      assert Texts(Steps(node, [])) == [];
    } else {
      forall i | 0 <= i < Width(node)
        ensures FoundIn(node, i, path)
      {
        FoundAtRoutes(Child(node, i), Joined(path, Written(StepOf(node, i))));
      }
      FoundToAll(node, Width(node), path);
      AllLeaves(node, path);
    }
  }

  /** One route comes before another where they first part. */
  ghost predicate Before(a: Route, b: Route) {
    exists k: nat :: k < |a| && k < |b| && a[..k] == b[..k] && a[k] < b[k]
  }

  ghost predicate InOrder(routes: seq<Route>) {
    forall i, j :: 0 <= i < j < |routes| ==> Before(routes[i], routes[j])
  }

  lemma BeforeThrough(i: nat, a: Route, b: Route)
    requires Before(a, b)
    ensures Before([i] + a, [i] + b)
  {
    var k: nat :| k < |a| && k < |b| && a[..k] == b[..k] && a[k] < b[k];
    assert ([i] + a)[..k + 1] == [i] + a[..k] == ([i] + b)[..k + 1];
  }

  lemma BeforeAtOnce(a: Route, b: Route)
    requires a != [] && b != [] && a[0] < b[0]
    ensures Before(a, b)
  {
    assert a[..0] == b[..0];
  }

  /** Every route is some way through the first children. */
  ghost predicate Heads(routes: seq<Route>, n: nat) {
    forall i :: 0 <= i < |routes| ==> routes[i] != [] && routes[i][0] < n
  }

  lemma InOrderJoined(before: seq<Route>, inner: seq<Route>, n: nat)
    requires InOrder(before) && Heads(before, n) && InOrder(inner)
    ensures InOrder(before + Through(n, inner)) && Heads(before + Through(n, inner), n + 1)
  {
    var last := Through(n, inner);
    forall i, j | 0 <= i < j < |before + last|
      ensures Before((before + last)[i], (before + last)[j])
    {
      if j < |before| {
        assert Before(before[i], before[j]);
      } else if i < |before| {
        BeforeAtOnce(before[i], last[j - |before|]);
      } else {
        BeforeThrough(n, inner[i - |before|], inner[j - |before|]);
      }
    }
  }

  lemma {:induction false} RoutesAreInOrder(node: Node, routes: seq<Route>)
    requires routes == Routes(node)
    ensures InOrder(routes)
    decreases node, 1, 0
  {
    if !node.Leaf? && !node.Unreadable? {
      RoutesToAreInOrder(node, Width(node), routes);
    }
  }

  lemma {:induction false} RoutesToAreInOrder(node: Node, n: nat, routes: seq<Route>)
    requires n <= Width(node) && routes == RoutesTo(node, n)
    ensures InOrder(routes) && Heads(routes, n)
    decreases node, 0, n
  {
    if n > 0 {
      var before, inner := RoutesTo(node, n - 1), Routes(Child(node, n - 1));
      RoutesToAreInOrder(node, n - 1, before);
      RoutesAreInOrder(Child(node, n - 1), inner);
      InOrderJoined(before, inner, n - 1);
    }
  }

  lemma {:induction false} RoutesAreAll(node: Node, route: Route)
    requires Ends(node, route)
    ensures route in Routes(node)
    decreases route
  {
    if route != [] {
      RoutesAreAll(Child(node, route[0]), route[1..]);
      ThroughHolds(node, Width(node), route);
    }
  }

  lemma {:induction false} ThroughHolds(node: Node, n: nat, route: Route)
    requires route != [] && route[0] < n <= Width(node) && route[1..] in Routes(Child(node, route[0]))
    ensures route in RoutesTo(node, n)
  {
    if route[0] == n - 1 {
      var inner := Routes(Child(node, n - 1));
      var j :| 0 <= j < |inner| && inner[j] == route[1..];
      assert route == [n - 1] + route[1..];
      assert Through(n - 1, inner)[j] == route;
    } else {
      ThroughHolds(node, n - 1, route);
    }
  }

  /**
   * The leaves of a record are the values its routes end at, each route once, in
   * the order they part; and the path of each is its steps with one dot between
   * each two, empty keys in front aside. What does not decode is where a route
   * ends in something unreadable.
   */
  lemma LeavesAreTheEnds(record: Node) returns (routes: seq<Route>)
    ensures |routes| == |Leaves(record, [])| && InOrder(routes)
    ensures forall route :: route in routes <==> Ends(record, route)
    ensures forall j :: 0 <= j < |routes| ==>
              match Leaves(record, [])[j]
              case Leaf(field) =>
                && Descend(record, routes[j]) == Some(Node.Leaf(field.value))
                && field.path == Dotted(Trimmed(Texts(Steps(record, routes[j]))))
              case Broken => Descend(record, routes[j]) == Some(Unreadable)
  {
    routes := Routes(record);
    FoundAtRoutes(record, []);
    RoutesAreInOrder(record, routes);
    forall route
      ensures route in routes <==> Ends(record, route)
    {
      if Ends(record, route) {
        RoutesAreAll(record, route);
      }
      if route in routes {
        var j :| 0 <= j < |routes| && routes[j] == route;
        assert IsFoundAt(record, [], Leaves(record, [])[j], routes[j]);
      }
    }
    forall j | 0 <= j < |routes|
      ensures IsFoundAt(record, [], Leaves(record, [])[j], routes[j])
      ensures Entered([], Texts(Steps(record, routes[j]))) == Dotted(Trimmed(Texts(Steps(record, routes[j]))))
    {
      EnteredIsDotted(Texts(Steps(record, routes[j])));
    }
  }

  /** An empty key in front is what no dot follows: elsewhere the path is the steps, dotted. */
  lemma {:induction false} DottedExactly(texts: seq<Text>)
    ensures Dotted(Trimmed(texts)) == Dotted(texts) <==> |texts| <= 1 || texts[0] != []
  {
    if |texts| > 1 && texts[0] == [] {
      TrimmedIsShorter(texts[1..]);
    }
  }

  lemma {:induction false} TrimmedIsShorter(texts: seq<Text>)
    ensures |Dotted(Trimmed(texts))| <= |Dotted(texts)|
  {
    if texts != [] && texts[0] == [] {
      TrimmedIsShorter(texts[1..]);
    }
  }

  // ----- From a path back to its value -----------------------------------------------------------

  /** Every key is something, has no dot in it, and is the only one of its name in its map. */
  predicate Plain(node: Node) {
    && (node.Mapping? ==>
          && (forall i :: 0 <= i < |node.entries| ==> node.entries[i].key != [] && 46 !in node.entries[i].key)
          && (forall i, j :: 0 <= i < j < |node.entries| ==> node.entries[i].key != node.entries[j].key))
    && forall i :: 0 <= i < Width(node) ==> Plain(Child(node, i))
  }

  /** Following steps by what they say, a key to the entry that has it and an index to its item, comes to a value. */
  ghost predicate Leads(node: Node, steps: seq<Step>, end: Node) {
    if steps == [] then node == end
    else exists i: nat :: i < Width(node) && StepOf(node, i) == steps[0] && Leads(Child(node, i), steps[1..], end)
  }

  /** The number that decimal digits spell. */
  function Spelt(digits: Text): int {
    if digits == [] then 0 else 10 * Spelt(digits[..|digits| - 1]) + (digits[|digits| - 1] as int - 48)
  }

  lemma {:induction false} DecimalSpells(n: nat)
    ensures Spelt(Decimal(n)) == n
    ensures Decimal(n) != [] && forall digit <- Decimal(n) :: 48 <= digit <= 57
  {
    var digits := Decimal(n);
    if n >= 10 {
      DecimalSpells(n / 10);
      assert digits[..|digits| - 1] == Decimal(n / 10);
    } else {
      assert digits[..|digits| - 1] == [];
    }
  }

  function FirstDot(text: Text): (i: nat)
    requires 46 in text
    ensures i < |text| && text[i] == 46 && 46 !in text[..i]
  {
    if text[0] == 46 then 0
    else
      var i := 1 + FirstDot(text[1..]);
      assert text[..i] == [text[0]] + text[1..][..i - 1];
      i
  }

  /** A path cut at its dots. */
  function Split(path: Text): seq<Text> {
    if 46 !in path then [path]
    else [path[..FirstDot(path)]] + Split(path[FirstDot(path) + 1..])
  }

  /** Texts that are something, and have no dot in them. */
  predicate Dotless(texts: seq<Text>) {
    forall i :: 0 <= i < |texts| ==> texts[i] != [] && 46 !in texts[i]
  }

  /** The first dot of a path is the one behind its first text. */
  lemma SplitBehind(first: Text, rest: Text)
    requires 46 !in first
    ensures Split(first + [46] + rest) == [first] + Split(rest)
  {
    var path := first + [46] + rest;
    assert path[|first|] == 46 && path[..|first|] == first && path[|first| + 1..] == rest;
    forall d: nat | d < |first|
      ensures path[d] != 46
    {
      assert path[d] == first[d];
    }
    forall d: nat | |first| < d <= |path|
      ensures 46 in path[..d]
    {
      assert path[..d][|first|] == 46;
    }
    assert FirstDot(path) == |first|;
  }

  lemma DottedCons(first: Text, rest: seq<Text>)
    requires rest != []
    ensures Dotted([first] + rest) == first + [46] + Dotted(rest)
  {
    assert ([first] + rest)[1..] == rest;
  }

  lemma {:induction false} SplitDotted(texts: seq<Text>)
    requires texts != [] && Dotless(texts)
    ensures Split(Dotted(texts)) == texts
  {
    var first, rest := texts[0], texts[1..];
    assert texts == [first] + rest;
    if rest == [] {
      assert Dotted(texts) == first;
    } else {
      SplitDotted(rest);
      DottedCons(first, rest);
      SplitBehind(first, Dotted(rest));
    }
  }

  /** Steps that can be told apart by how they are written. */
  lemma StepWritten(node: Node, i: nat, j: nat)
    requires Plain(node) && i < Width(node) && j < Width(node)
    ensures Written(StepOf(node, i)) != [] && 46 !in Written(StepOf(node, i))
    ensures Written(StepOf(node, i)) == Written(StepOf(node, j)) ==> i == j
  {
    DecimalSpells(i);
    DecimalSpells(j);
  }

  lemma {:induction false} TextsArePlain(node: Node, route: Route)
    requires Plain(node) && Descend(node, route).Some?
    ensures Dotless(Texts(Steps(node, route)))
  {
    if route != [] {
      StepWritten(node, route[0], route[0]);
      TextsArePlain(Child(node, route[0]), route[1..]);
      TextsOfSteps(node, route);
    }
  }

  lemma TextsOfSteps(node: Node, route: Route)
    requires route != [] && Descend(node, route).Some?
    ensures Texts(Steps(node, route)) ==
            [Written(StepOf(node, route[0]))] + Texts(Steps(Child(node, route[0]), route[1..]))
  {
  }

  /** The steps of a route lead where it does, and nowhere else. */
  lemma {:induction false} StepsLead(node: Node, route: Route, end: Node)
    requires Plain(node) && Descend(node, route).Some?
    ensures Leads(node, Steps(node, route), end) <==> Descend(node, route) == Some(end)
  {
    if route != [] {
      var steps, child := Steps(node, route), Child(node, route[0]);
      assert steps[1..] == Steps(child, route[1..]);
      StepsLead(child, route[1..], end);
      forall i: nat | i < Width(node) && StepOf(node, i) == steps[0]
        ensures i == route[0]
      {
        StepWritten(node, i, route[0]);
      }
    }
  }

  /** The path a route gives a value. */
  function PathOf(record: Node, route: Route): Text
    requires Descend(record, route).Some?
  {
    Dotted(Trimmed(Texts(Steps(record, route))))
  }

  /**
   * With keys that are not empty, have no dots and do not repeat, a path leads back
   * to its value: cut at its dots it is the steps, a key as it stands and an index
   * in digits that spell it; and following those steps comes to that value alone.
   */
  lemma PathLeadsBack(record: Node, route: Route, end: Node)
    requires Plain(record) && route != [] && Descend(record, route).Some?
    ensures var steps := Steps(record, route);
            && Split(PathOf(record, route)) == Texts(steps)
            && (forall i :: 0 <= i < |steps| && steps[i].Index? ==> Spelt(Texts(steps)[i]) == steps[i].n)
            && (Leads(record, steps, end) <==> Descend(record, route) == Some(end))
  {
    PathSplits(record, route);
    StepsLead(record, route, end);
    IndexesSpell(Steps(record, route));
  }

  lemma PathSplits(record: Node, route: Route)
    requires Plain(record) && route != [] && Descend(record, route).Some?
    ensures Split(PathOf(record, route)) == Texts(Steps(record, route))
  {
    var texts := Texts(Steps(record, route));
    TextsArePlain(record, route);
    TextsOfSteps(record, route);
    assert texts[0] != [] && Trimmed(texts) == texts;
    SplitDotted(texts);
  }

  lemma IndexesSpell(steps: seq<Step>)
    ensures forall i :: 0 <= i < |steps| && steps[i].Index? ==> Spelt(Texts(steps)[i]) == steps[i].n
  {
    forall i | 0 <= i < |steps| && steps[i].Index?
      ensures Spelt(Texts(steps)[i]) == steps[i].n
    {
      DecimalSpells(steps[i].n);
    }
  }

  lemma {:induction false} TextsTellRoutes(node: Node, a: Route, b: Route)
    requires Plain(node) && Ends(node, a) && Ends(node, b)
    requires Texts(Steps(node, a)) == Texts(Steps(node, b))
    ensures a == b
  {
    if a != [] && b != [] {
      TextsOfSteps(node, a);
      TextsOfSteps(node, b);
      var first, second := Texts(Steps(node, a)), Texts(Steps(node, b));
      assert first[0] == second[0] && first[1..] == second[1..];
      StepWritten(node, a[0], b[0]);
      TextsTellRoutes(Child(node, a[0]), a[1..], b[1..]);
      assert a == [a[0]] + a[1..] && b == [b[0]] + b[1..];
    }
  }

  /** And so no two values of such a record are kept under one path. */
  lemma PathsAreDistinct(record: Node, a: Route, b: Route)
    requires Plain(record) && Ends(record, a) && Ends(record, b)
    requires PathOf(record, a) == PathOf(record, b)
    ensures a == b
  {
    if a != [] && b != [] {
      PathSplits(record, a);
      PathSplits(record, b);
      TextsTellRoutes(record, a, b);
    }
  }

  /** What is kept of a record is kept under the path of a value of it. */
  lemma KeptLeadsBack(record: Node, i: nat) returns (route: Route)
    requires Fed(NOTHING, Leaves(record, [])).Ok? && i < |Fed(NOTHING, Leaves(record, [])).value.fields|
    ensures var field := Fed(NOTHING, Leaves(record, [])).value.fields[i];
            && Descend(record, route) == Some(Node.Leaf(field.value))
            && field.path == PathOf(record, route)
  {
    var leaves := Leaves(record, []);
    KeptIsAPrefix(leaves);
    FieldAt(leaves, |Fed(NOTHING, leaves).value.fields|, i);
    var routes := LeavesAreTheEnds(record);
    route := routes[i];
  }

  lemma {:induction false} FieldAt(leaves: seq<Found>, n: nat, i: nat)
    requires Readable(leaves, n) && i < n
    ensures FieldsOf(leaves, n)[i] == leaves[i].field
  {
    if i < n - 1 {
      FieldAt(leaves, n - 1, i);
    }
  }
}
