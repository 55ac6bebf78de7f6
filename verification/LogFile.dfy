/** The trie file: nodes written breadth first, each with the index of its father, and read back
    into an array. */
module LogFile {
  import opened Wrappers
  import opened Text
  import opened Tries

  // ---- the text of a trie file ----

  /** value_list_ as written after its length. */
  function RenderValues(values: seq<int>): string {
    if values == [] then "" else RenderInt(values[0]) + " " + RenderValues(values[1..])
  }

  /** One line: father, character, number of values, values. */
  function RenderNode(father: int, n: Node<int>): string {
    RenderInt(father) + " " + [n.c] + " " + RenderInt(|n.values|) + " " + RenderValues(n.values) + "\n"
  }

  function RenderNodes(nodes: seq<Node<int>>, fathers: seq<int>): string
    requires |nodes| == |fathers|
  {
    if nodes == [] then "" else RenderNode(fathers[0], nodes[0]) + RenderNodes(nodes[1..], fathers[1..])
  }

  /** The line of a node with two values, as it is written. */
  lemma NodeText(father: int, c: char, v: int, w: int)
    ensures RenderNode(father, Node(c, map[], [v, w])) ==
              RenderInt(father) + " " + [c] + " 2 " + RenderInt(v) + " " + RenderInt(w) + " \n"
    ensures RenderNode(father, Node(c, map[], [])) == RenderInt(father) + " " + [c] + " 0 \n"
    ensures ROOT == '@'
  {
    hide RenderInt, RenderValues;
    TwoValues(v, w);
    SmallNumbers();
    var none: seq<int> := [];
    assert RenderInt(|[v, w]|) == "2" && RenderInt(|none|) == "0";
    NoValuesText();
  }

  lemma SmallNumbers()
    ensures RenderInt(0) == "0" && RenderInt(1) == "1" && RenderInt(2) == "2"
  {
  }

  lemma NoValuesText()
    ensures RenderValues([]) == ""
  {
  }

  lemma TwoValues(v: int, w: int)
    ensures RenderValues([v, w]) == RenderInt(v) + " " + RenderInt(w) + " "
  {
    hide RenderInt;
    NoValuesText();
    assert [v, w][1..] == [w] && [w][1..] == [];
    assert RenderValues([w]) == RenderInt(w) + " " + RenderValues([]);
  }

  /** A list of two entries, as it is written. */
  lemma ListText(v: int, w: int)
    ensures RenderList([v, w]) == "2\n0 " + RenderInt(v) + "\n1 " + RenderInt(w) + "\n"
  {
    hide RenderInt;
    var list := [v, w];
    SmallNumbers();
    assert list[1..] == [w] && list[1..][1..] == [];
    assert RenderLines(list[1..], 1) == RenderInt(1) + " " + RenderInt(w) + "\n";
  }

  // ---- the order of the file ----

  /** nodes is a listing of the tree below root: each but the first sits under an earlier one,
      its father, which has every node once under its character. */
  ghost predicate Listing(root: Node<int>, nodes: seq<Node<int>>, fathers: seq<int>, done: nat) {
    && |nodes| == |fathers| && 0 < |nodes| && done <= |nodes|
    && nodes[0] == root && fathers[0] == -1
    && (forall j | 1 <= j < |nodes| :: ChildOf(nodes, fathers[j], j))
    && Siblings(nodes, fathers)
    && (forall k, c | 0 <= k < done && c in nodes[k].kids :: Listed(nodes, fathers, k, c))
  }

  /** No two children of one father share a character. */
  ghost predicate Siblings(nodes: seq<Node<int>>, fathers: seq<int>) {
    |nodes| == |fathers| && forall i, j | 1 <= i < j < |nodes| && fathers[i] == fathers[j] :: nodes[i].c != nodes[j].c
  }

  ghost predicate ChildOf(nodes: seq<Node<int>>, father: int, j: int)
    requires 1 <= j < |nodes|
  {
    0 <= father < j && nodes[j].c in nodes[father].kids && nodes[father].kids[nodes[j].c] == nodes[j]
  }

  /** Child c of node k has its place in the listing. */
  ghost predicate Listed(nodes: seq<Node<int>>, fathers: seq<int>, k: int, c: char)
    requires |nodes| == |fathers|
  {
    exists j | 1 <= j < |nodes| :: fathers[j] == k && nodes[j].c == c
  }

  /** text is what Save_trie_file may write for the tree, whatever order the maps iterate in. */
  ghost predicate Saved(root: Node<int>, text: string) {
    exists nodes, fathers | Listing(root, nodes, fathers, |nodes|) && |nodes| == Count(root) ::
      text == RenderInt(|nodes|) + "\n" + RenderNodes(nodes, fathers)
  }

  // ---- reading ----

  /** A node of the array Read_trie_file fills: children by index. */
  datatype Flat = Flat(c: char, kids: map<char, nat>, values: seq<int>)

  function ReadValues(text: string, n: nat): (r: Option<(seq<int>, string)>)
    ensures r.Some? ==> |r.value.0| == n
    decreases n
  {
    if n == 0 then Some(([], text))
    else match ReadInt(text)
      case None => None
      case Some((v, rest)) =>
        match ReadValues(rest, n - 1)
        case None => None
        case Some((vs, rest')) => Some(([v] + vs, rest'))
  }

  /** father, character and number of values. */
  function ReadHead(text: string): (r: Option<(int, char, int, string)>)
    ensures r.Some? ==> !IsSpace(r.value.1)
  {
    match ReadInt(text)
    case None => None
    case Some((father, t1)) =>
      match ReadChar(t1)
      case None => None
      case Some((c, t2)) =>
        match ReadInt(t2)
        case None => None
        case Some((len, t3)) => Some((father, c, len, t3))
  }

  /** Put a new node under its father; an existing child of that character stays. */
  function Attach(nodes: seq<Flat>, father: int, n: Flat): (r: seq<Flat>)
    requires 0 <= father < |nodes|
    ensures |r| == |nodes| + 1
  {
    var f := nodes[father];
    nodes[father := if n.c in f.kids then f else f.(kids := f.kids[n.c := |nodes|])] + [n]
  }

  /** The loop of Read_trie_file from node |nodes| on. None where the program would exit or
      index outside the array. */
  function ReadNodes(text: string, nodes: seq<Flat>, total: nat): (r: Option<seq<Flat>>)
    requires |nodes| <= total
    ensures r.Some? ==> |r.value| == total
    decreases total - |nodes|
  {
    if |nodes| == total then Some(nodes)
    else match ReadHead(text)
      case None => None
      case Some((father, c, len, t1)) =>
        if !(0 <= father < |nodes|) || len < 0 then None
        else match ReadValues(t1, len)
          case None => None
          case Some((values, t2)) => ReadNodes(t2, Attach(nodes, father, Flat(c, map[], values)), total)
  }

  function ReadFile(text: string): (r: Option<seq<Flat>>)
    ensures r.Some? ==> |r.value| > 0
  {
    match ReadInt(text)
    case None => None
    case Some((total, t1)) =>
      match ReadHead(t1)
      case None => None
      case Some((father, c, len, t2)) =>
        if father != -1 || len != 0 || total < 1 then None
        else ReadNodes(t2, [Flat(c, map[], [])], total)
  }

  /** Fathers come before their children. */
  ghost predicate Forward(nodes: seq<Flat>) {
    forall k, c | 0 <= k < |nodes| && c in nodes[k].kids :: k < nodes[k].kids[c] < |nodes|
  }

  /** The tree rooted at entry k of the array. */
  function TreeAt(nodes: seq<Flat>, k: nat): (n: Node<int>)
    requires Forward(nodes) && k < |nodes|
    decreases |nodes| - k
  {
    Node(nodes[k].c, map c | c in nodes[k].kids :: TreeAt(nodes, nodes[k].kids[c]), nodes[k].values)
  }

  lemma {:induction false} ReadNodesForward(text: string, nodes: seq<Flat>, total: nat)
    requires |nodes| <= total && Forward(nodes)
    ensures var r := ReadNodes(text, nodes, total); r.Some? ==> Forward(r.value)
    decreases total - |nodes|
  {
    if |nodes| < total {
      match ReadHead(text)
      case None =>
      case Some((father, c, len, t1)) =>
        if 0 <= father < |nodes| && len >= 0 {
          match ReadValues(t1, len)
          case None =>
          case Some((values, t2)) => ReadNodesForward(t2, Attach(nodes, father, Flat(c, map[], values)), total);
        }
    }
  }

  lemma ReadFileForward(text: string)
    ensures ReadFile(text).Some? ==> Forward(ReadFile(text).value)
  {
    match ReadInt(text)
    case None =>
    case Some((total, t1)) =>
      match ReadHead(t1)
      case None =>
      case Some((father, c, len, t2)) =>
        if father == -1 && len == 0 && total >= 1 { ReadNodesForward(t2, [Flat(c, map[], [])], total); }
  }

  /** The tree a file holds. */
  ghost function Load(text: string): Option<Node<int>> {
    match ReadFile(text)
    case None => None
    case Some(nodes) => ReadFileForward(text); Some(TreeAt(nodes, 0))
  }

  // ---- reading back what was written ----

  lemma {:induction false} ReadValuesOf(values: seq<int>, rest: string)
    ensures ReadValues(" " + RenderValues(values) + "\n" + rest, |values|) == Some((values, " \n" + rest))
  {
    hide RenderInt, ReadInt, ReadDigits, SkipSpaces;
    var text := " " + RenderValues(values) + "\n" + rest;
    if values == [] {
      assert text == " \n" + rest;
    } else {
      var vs := values[1..];
      var tail := " " + RenderValues(vs) + "\n" + rest;
      assert text == [' '] + (RenderInt(values[0]) + tail);
      SkipOne(' ', RenderInt(values[0]) + tail);
      ReadIntOf(values[0], tail);
      ReadValuesOf(vs, rest);
      assert ReadInt(text) == Some((values[0], tail));
      assert [values[0]] + vs == values;
    }
  }

  lemma ReadHeadOf(father: int, n: Node<int>, rest: string)
    requires !IsSpace(n.c)
    ensures ReadHead(RenderNode(father, n) + rest)
         == Some((father, n.c, |n.values|, " " + RenderValues(n.values) + "\n" + rest))
  {
    hide RenderInt, SkipSpaces, ReadInt, ReadChar, RenderValues;
    var t3 := " " + RenderValues(n.values) + "\n" + rest;
    var t2 := RenderInt(|n.values|) + t3;
    var t1 := [n.c] + ([' '] + t2);
    assert RenderNode(father, n) + rest == RenderInt(father) + ([' '] + t1);
    ReadIntOf(father, [' '] + t1);
    SkipOne(' ', t1);
    ReadCharOf(n.c, [' '] + t2);
    SkipOne(' ', t2);
    ReadIntOf(|n.values|, t3);
  }

  lemma SkipBeforeHead(text: string)
    ensures ReadHead("\n" + text) == ReadHead(text) && ReadHead(" \n" + text) == ReadHead(text)
  {
    SkipOne('\n', text);
    assert " \n" + text == [' '] + (['\n'] + text);
    SkipOne(' ', ['\n'] + text);
  }

  /** Children of k among the first i nodes. */
  ghost function Kids(nodes: seq<Node<int>>, fathers: seq<int>, i: nat, k: int): map<char, nat>
    requires i <= |nodes| == |fathers|
  {
    if i <= 1 then map[]
    else if fathers[i - 1] == k then Kids(nodes, fathers, i - 1, k)[nodes[i - 1].c := i - 1]
    else Kids(nodes, fathers, i - 1, k)
  }

  /** The array after reading i nodes; the root's values are not read. */
  ghost function Array(nodes: seq<Node<int>>, fathers: seq<int>, i: nat): (r: seq<Flat>)
    requires i <= |nodes| == |fathers|
    ensures |r| == i
  {
    seq(i, k requires 0 <= k < i => Flat(nodes[k].c, Kids(nodes, fathers, i, k), if k == 0 then [] else nodes[k].values))
  }

  lemma {:induction false} KidsAre(nodes: seq<Node<int>>, fathers: seq<int>, i: nat, k: int)
    requires Siblings(nodes, fathers) && i <= |nodes|
    ensures forall c | c in Kids(nodes, fathers, i, k) :: var j := Kids(nodes, fathers, i, k)[c];
              1 <= j < i && fathers[j] == k && nodes[j].c == c
    ensures forall j | 1 <= j < i && fathers[j] == k ::
              nodes[j].c in Kids(nodes, fathers, i, k) && Kids(nodes, fathers, i, k)[nodes[j].c] == j
  {
    if i > 1 { KidsAre(nodes, fathers, i - 1, k); }
  }

  lemma ListingChild(root: Node<int>, nodes: seq<Node<int>>, fathers: seq<int>, done: nat, j: int)
    requires Listing(root, nodes, fathers, done) && 1 <= j < |nodes|
    ensures ChildOf(nodes, fathers[j], j)
  {
  }

  lemma ListingParts(root: Node<int>, nodes: seq<Node<int>>, fathers: seq<int>)
    requires Listing(root, nodes, fathers, |nodes|)
    ensures Siblings(nodes, fathers)
  {
  }

  /** No node read so far hangs under the next one. */
  lemma NoKidsYet(root: Node<int>, nodes: seq<Node<int>>, fathers: seq<int>, i: nat)
    requires Listing(root, nodes, fathers, |nodes|) && 1 <= i < |nodes|
    ensures Kids(nodes, fathers, i + 1, i) == map[]
  {
    hide Listing, Kids;
    ListingParts(root, nodes, fathers);
    var kids := Kids(nodes, fathers, i + 1, i);
    KidsAre(nodes, fathers, i + 1, i);
    if c: char :| c in kids {
      ListingChild(root, nodes, fathers, |nodes|, kids[c]);
    }
  }

  lemma AttachNext(root: Node<int>, nodes: seq<Node<int>>, fathers: seq<int>, i: nat)
    requires Listing(root, nodes, fathers, |nodes|) && 1 <= i < |nodes|
    ensures 0 <= fathers[i] < i
    ensures Attach(Array(nodes, fathers, i), fathers[i], Flat(nodes[i].c, map[], nodes[i].values))
         == Array(nodes, fathers, i + 1)
  {
    var f := fathers[i];
    ListingChild(root, nodes, fathers, |nodes|, i);
    KidsAre(nodes, fathers, i, f);
    NoKidsYet(root, nodes, fathers, i);
    AttachIsNext(nodes, fathers, i);
  }

  lemma AttachIsNext(nodes: seq<Node<int>>, fathers: seq<int>, i: nat)
    requires |nodes| == |fathers| && 1 <= i < |nodes| && 0 <= fathers[i] < i
    requires nodes[i].c !in Kids(nodes, fathers, i, fathers[i]) && Kids(nodes, fathers, i + 1, i) == map[]
    ensures Attach(Array(nodes, fathers, i), fathers[i], Flat(nodes[i].c, map[], nodes[i].values))
         == Array(nodes, fathers, i + 1)
  {
  }

  ghost predicate NoSpaces(nodes: seq<Node<int>>) {
    forall k | 0 <= k < |nodes| :: !IsSpace(nodes[k].c)
  }

  lemma {:induction false} ReadNodesOf(root: Node<int>, nodes: seq<Node<int>>, fathers: seq<int>, i: nat)
    requires Listing(root, nodes, fathers, |nodes|) && 1 <= i <= |nodes| && NoSpaces(nodes)
    ensures ReadNodes(" \n" + RenderNodes(nodes[i..], fathers[i..]), Array(nodes, fathers, i), |nodes|)
         == Some(Array(nodes, fathers, |nodes|))
    decreases |nodes| - i
  {
    hide RenderInt, ReadHead, ReadValues, RenderValues, Attach, Array, RenderNode, Siblings, ChildOf, Listed;
    if i < |nodes| {
      var n, f := nodes[i], fathers[i];
      var rest := RenderNodes(nodes[i + 1..], fathers[i + 1..]);
      assert nodes[i..][1..] == nodes[i + 1..] && fathers[i..][1..] == fathers[i + 1..];
      assert RenderNodes(nodes[i..], fathers[i..]) == RenderNode(f, n) + rest;
      SkipBeforeHead(RenderNode(f, n) + rest);
      ReadHeadOf(f, n, rest);
      ReadValuesOf(n.values, rest);
      AttachNext(root, nodes, fathers, i);
      ReadNodesOf(root, nodes, fathers, i + 1);
    }
  }

  lemma ReadFileOf(root: Node<int>, nodes: seq<Node<int>>, fathers: seq<int>)
    requires Listing(root, nodes, fathers, |nodes|) && NoSpaces(nodes) && root.values == []
    ensures ReadFile(RenderInt(|nodes|) + "\n" + RenderNodes(nodes, fathers)) == Some(Array(nodes, fathers, |nodes|))
  {
    hide RenderInt, ReadHead, RenderValues, RenderNode, ReadNodes, ReadInt, Siblings, ChildOf, Listed;
    var rest := RenderNodes(nodes[1..], fathers[1..]);
    var body := RenderNode(-1, root) + rest;
    assert RenderNodes(nodes, fathers) == body;
    assert RenderInt(|nodes|) + "\n" + body == RenderInt(|nodes|) + (['\n'] + body);
    ReadIntOf(|nodes|, ['\n'] + body);
    SkipBeforeHead(body);
    ReadHeadOf(-1, root, rest);
    NoValues();
    ReadNodesOf(root, nodes, fathers, 1);
    assert Array(nodes, fathers, 1) == [Flat(root.c, map[], [])];
    assert " " + RenderValues(root.values) + "\n" + rest == " \n" + rest;
    assert ReadInt(RenderInt(|nodes|) + "\n" + body) == Some((|nodes|, "\n" + body));
    assert ReadHead("\n" + body) == Some((-1, root.c, 0, " \n" + rest));
  }

  lemma NoValues()
    ensures RenderValues([]) == ""
  {
  }

  lemma {:induction false} TreeAtArray(root: Node<int>, nodes: seq<Node<int>>, fathers: seq<int>, k: nat)
    requires Listing(root, nodes, fathers, |nodes|) && k < |nodes| && root.values == []
    requires Forward(Array(nodes, fathers, |nodes|))
    ensures TreeAt(Array(nodes, fathers, |nodes|), k) == nodes[k]
    decreases |nodes| - k
  {
    var a := Array(nodes, fathers, |nodes|);
    var kids := Kids(nodes, fathers, |nodes|, k);
    KidsAre(nodes, fathers, |nodes|, k);
    forall c ensures c in kids <==> c in nodes[k].kids {
      if c in nodes[k].kids {
        assert Listed(nodes, fathers, k, c);
      }
      if c in kids {
        assert ChildOf(nodes, fathers[kids[c]], kids[c]);
      }
    }
    forall c | c in kids ensures TreeAt(a, kids[c]) == nodes[k].kids[c] {
      assert ChildOf(nodes, fathers[kids[c]], kids[c]);
      TreeAtArray(root, nodes, fathers, kids[c]);
    }
    assert TreeAt(a, k).kids == nodes[k].kids;
  }

  // ---- the round trip, exactly ----

  /** No word that can be found has a whitespace character. */
  ghost predicate WordsWithoutSpaces(root: Node<int>) {
    forall x | SearchNode(root, x).Some? :: NoSpaceIn(x)
  }

  predicate NoSpaceIn(x: string) {
    forall k | 0 <= k < |x| :: !IsSpace(x[k])
  }

  lemma {:induction false} SearchAppend(root: Node<int>, x: string, c: char)
    requires SearchNode(root, x).Some? && c in SearchNode(root, x).value.kids
    ensures SearchNode(root, x + [c]) == Some(SearchNode(root, x).value.kids[c])
    decreases |x|
  {
    if x != [] {
      assert (x + [c])[1..] == x[1..] + [c];
      SearchAppend(root.kids[x[0]], x[1..], c);
    }
  }

  /** The word that leads to a listed node. */
  lemma {:induction false} WordOf(root: Node<int>, nodes: seq<Node<int>>, fathers: seq<int>, j: nat) returns (x: string)
    requires Listing(root, nodes, fathers, |nodes|) && j < |nodes|
    ensures SearchNode(root, x) == Some(nodes[j])
    ensures j > 0 ==> x != [] && x[|x| - 1] == nodes[j].c
  {
    if j == 0 {
      x := [];
    } else {
      ListingChild(root, nodes, fathers, |nodes|, j);
      var y := WordOf(root, nodes, fathers, fathers[j]);
      SearchAppend(root, y, nodes[j].c);
      x := y + [nodes[j].c];
    }
  }

  ghost predicate CleanKids(nodes: seq<Flat>) {
    forall k, c | 0 <= k < |nodes| && c in nodes[k].kids :: !IsSpace(c)
  }

  lemma {:induction false} ReadNodesClean(text: string, nodes: seq<Flat>, total: nat)
    requires |nodes| <= total && CleanKids(nodes)
    ensures var r := ReadNodes(text, nodes, total); r.Some? ==> CleanKids(r.value)
    decreases total - |nodes|
  {
    hide ReadInt, SkipSpaces, IsSpace;
    if |nodes| < total {
      match ReadHead(text)
      case None =>
      case Some((father, c, len, t1)) =>
        if 0 <= father < |nodes| && len >= 0 {
          match ReadValues(t1, len)
          case None =>
          case Some((values, t2)) => ReadNodesClean(t2, Attach(nodes, father, Flat(c, map[], values)), total);
        }
    }
  }

  lemma {:induction false} CleanTree(nodes: seq<Flat>, k: nat, x: string)
    requires Forward(nodes) && CleanKids(nodes) && k < |nodes| && SearchNode(TreeAt(nodes, k), x).Some?
    ensures NoSpaceIn(x)
    decreases |x|
  {
    if x != [] {
      CleanTree(nodes, nodes[k].kids[x[0]], x[1..]);
      assert x == [x[0]] + x[1..];
    }
  }

  /** What was loaded never has a whitespace character on a path: operator>> skips them. */
  lemma LoadedWithoutSpaces(text: string)
    ensures Load(text).Some? ==> WordsWithoutSpaces(Load(text).value)
  {
    hide ReadInt;
    match ReadFile(text)
    case None =>
    case Some(nodes) =>
      var (total, t1) := ReadInt(text).value;
      var (father, c, len, t2) := ReadHead(t1).value;
      ReadFileForward(text);
      ReadNodesClean(t2, [Flat(c, map[], [])], total);
      forall x | SearchNode(TreeAt(nodes, 0), x).Some? ensures NoSpaceIn(x) {
        CleanTree(nodes, 0, x);
      }
  }

  lemma {:induction false} ReadNodesKeepsRoot(text: string, nodes: seq<Flat>, total: nat)
    requires 0 < |nodes| <= total
    ensures var r := ReadNodes(text, nodes, total); r.Some? ==> r.value[0].values == nodes[0].values
    decreases total - |nodes|
  {
    hide ReadHead, ReadValues;
    if |nodes| < total {
      match ReadHead(text)
      case None =>
      case Some((father, c, len, t1)) =>
        if 0 <= father < |nodes| && len >= 0 {
          match ReadValues(t1, len)
          case None =>
          case Some((values, t2)) => ReadNodesKeepsRoot(t2, Attach(nodes, father, Flat(c, map[], values)), total);
        }
    }
  }

  /** A root that is loaded has no values: a file that gives it some is rejected. */
  lemma LoadedRootValues(text: string)
    ensures Load(text).Some? ==> Load(text).value.values == []
  {
    hide ReadInt, ReadHead, ReadNodes;
    match ReadFile(text)
    case None =>
    case Some(nodes) =>
      var (total, t1) := ReadInt(text).value;
      var (father, c, len, t2) := ReadHead(t1).value;
      ReadFileForward(text);
      ReadNodesKeepsRoot(t2, [Flat(c, map[], [])], total);
  }

  /** Save then load gives the very same tree, in whatever order the children were written, if
      and only if no word in it has a whitespace character and the empty word has no values. */
  lemma RoundTripExactly(root: Node<int>, text: string)
    requires root.c == ROOT && Saved(root, text)
    ensures Load(text) == Some(root) <==> WordsWithoutSpaces(root) && root.values == []
  {
    hide Load, RenderNodes, WordsWithoutSpaces, Siblings, Listed, ChildOf;
    LoadedWithoutSpaces(text);
    LoadedRootValues(text);
    if WordsWithoutSpaces(root) && root.values == [] {
      var nodes, fathers :| Listing(root, nodes, fathers, |nodes|) && |nodes| == Count(root)
                            && text == RenderInt(|nodes|) + "\n" + RenderNodes(nodes, fathers);
      LoadsBack(root, nodes, fathers);
    }
  }

  lemma CleanListing(root: Node<int>, nodes: seq<Node<int>>, fathers: seq<int>)
    requires root.c == ROOT && Listing(root, nodes, fathers, |nodes|) && WordsWithoutSpaces(root)
    ensures NoSpaces(nodes)
  {
    hide Siblings, ChildOf, Listed;
    forall k | 0 <= k < |nodes| ensures !IsSpace(nodes[k].c) {
      var x := WordOf(root, nodes, fathers, k);
      assert NoSpaceIn(x);
    }
  }

  lemma LoadsBack(root: Node<int>, nodes: seq<Node<int>>, fathers: seq<int>)
    requires root.c == ROOT && root.values == [] && Listing(root, nodes, fathers, |nodes|) && WordsWithoutSpaces(root)
    ensures Load(RenderInt(|nodes|) + "\n" + RenderNodes(nodes, fathers)) == Some(root)
  {
    hide RenderInt, RenderNodes, ReadFile, Array;
    CleanListing(root, nodes, fathers);
    var text := RenderInt(|nodes|) + "\n" + RenderNodes(nodes, fathers);
    ReadFileOf(root, nodes, fathers);
    ReadFileForward(text);
    TreeAtArray(root, nodes, fathers, 0);
  }

  /** A key of one blank is lost: its file loads as some other tree or not at all. */
  lemma BlankKeyIsLost(text: string)
    requires Saved(InsertNode(false, Node(ROOT, map[], []), " ", 0).0, text)
    ensures Load(text) != Some(InsertNode(false, Node(ROOT, map[], []), " ", 0).0)
  {
    var root := InsertNode(false, Node(ROOT, map[], []), " ", 0).0;
    assert SearchNode(root, " ").Some? && !NoSpaceIn(" ");
    RoundTripExactly(root, text);
  }

  // ---- writing, step by step ----

  /** Nodes still to be written, counting what hangs below them. */
  ghost function Pending(nodes: seq<Node<int>>): nat {
    if nodes == [] then 0 else Count(nodes[0]) + Pending(nodes[1..])
  }

  lemma {:induction false} PendingAppend(nodes: seq<Node<int>>, n: Node<int>)
    ensures Pending(nodes + [n]) == Pending(nodes) + Count(n)
  {
    if nodes == [] {
      assert nodes + [n] == [n];
    } else {
      assert (nodes + [n])[1..] == nodes[1..] + [n];
      PendingAppend(nodes[1..], n);
    }
  }

  lemma {:induction false} RenderAppend(nodes: seq<Node<int>>, fathers: seq<int>, n: Node<int>, father: int)
    requires |nodes| == |fathers|
    ensures RenderNodes(nodes + [n], fathers + [father]) == RenderNodes(nodes, fathers) + RenderNode(father, n)
  {
    hide RenderNode;
    if nodes == [] {
      assert nodes + [n] == [n] && fathers + [father] == [father];
    } else {
      assert (nodes + [n])[1..] == nodes[1..] + [n] && (fathers + [father])[1..] == fathers[1..] + [father];
      RenderAppend(nodes[1..], fathers[1..], n, father);
    }
  }

  /** While node `done` is being expanded: its children in `left` are not in the listing yet,
      the others are. */
  ghost predicate Expanding(root: Node<int>, nodes: seq<Node<int>>, fathers: seq<int>, done: nat, left: set<char>) {
    && Listing(root, nodes, fathers, done) && done < |nodes| && left <= nodes[done].kids.Keys
    && (forall c | c in nodes[done].kids && c !in left :: Listed(nodes, fathers, done, c))
    && (forall j | 1 <= j < |nodes| && fathers[j] == done :: nodes[j].c !in left)
    && (forall j | 1 <= j < |nodes| :: fathers[j] <= done)
    && (forall j | 0 <= j < |nodes| :: Keyed(nodes[j]))
  }

  lemma ListedStays(nodes: seq<Node<int>>, fathers: seq<int>, n: Node<int>, father: int, k: int, c: char)
    requires |nodes| == |fathers| && Listed(nodes, fathers, k, c)
    ensures Listed(nodes + [n], fathers + [father], k, c)
  {
    var j :| 1 <= j < |nodes| && fathers[j] == k && nodes[j].c == c;
    assert (fathers + [father])[j] == k && (nodes + [n])[j].c == c;
  }

  /** Queueing one child of the node being expanded. */
  lemma ExpandOne(root: Node<int>, nodes: seq<Node<int>>, fathers: seq<int>, done: nat, left: set<char>, c: char)
    requires Expanding(root, nodes, fathers, done, left) && c in left
    ensures Expanding(root, nodes + [nodes[done].kids[c]], fathers + [done], done, left - {c})
  {
    hide Listed, Keyed;
    var n := nodes[done].kids[c];
    var nodes', fathers' := nodes + [n], fathers + [done];
    KeyedKid(nodes[done], c);
    forall k, d | 0 <= k < |nodes| && d in nodes[k].kids && Listed(nodes, fathers, k, d)
      ensures Listed(nodes', fathers', k, d)
    {
      ListedStays(nodes, fathers, n, done, k, d);
    }
    NowListed(nodes', fathers', |nodes|);
    forall j | 1 <= j < |nodes'| ensures ChildOf(nodes', fathers'[j], j) {
      if j < |nodes| { assert ChildOf(nodes, fathers[j], j); }
    }
  }

  lemma KeyedKid(n: Node<int>, c: char)
    requires Keyed(n) && c in n.kids
    ensures n.kids[c].c == c && Keyed(n.kids[c])
  {
  }

  lemma NowListed(nodes: seq<Node<int>>, fathers: seq<int>, j: nat)
    requires 1 <= j < |nodes| == |fathers|
    ensures Listed(nodes, fathers, fathers[j], nodes[j].c)
  {
  }

  /** Expansion starts with every child of the node at the head of the queue left. */
  lemma ExpandNone(root: Node<int>, nodes: seq<Node<int>>, fathers: seq<int>, done: nat)
    requires Listing(root, nodes, fathers, done) && done < |nodes|
    requires forall j | 1 <= j < |nodes| :: fathers[j] < done
    requires forall j | 0 <= j < |nodes| :: Keyed(nodes[j])
    ensures Expanding(root, nodes, fathers, done, nodes[done].kids.Keys)
  {
    hide Keyed, Siblings, ChildOf, Listed;
  }

  /** ... and ends with one more node of the listing complete. */
  lemma ExpandAll(root: Node<int>, nodes: seq<Node<int>>, fathers: seq<int>, done: nat)
    requires Expanding(root, nodes, fathers, done, {})
    ensures Listing(root, nodes, fathers, done + 1)
  {
    hide Keyed, Siblings, ChildOf, Listed;
  }

  datatype SerializationUnit = SerializationUnit(node: Node<int>, father: int)

  /** The queue holds the listing from `from` on. */
  ghost predicate Queued(queue: seq<SerializationUnit>, nodes: seq<Node<int>>, fathers: seq<int>, from: nat) {
    && |nodes| == |fathers| && from <= |nodes| && |queue| == |nodes| - from
    && forall k | 0 <= k < |queue| :: queue[k] == SerializationUnit(nodes[from + k], fathers[from + k])
  }

  // ---- lists of offsets and of timestamps ----

  /** Lines "index value". */
  function RenderLines(list: seq<int>, from: nat): string {
    if list == [] then "" else RenderInt(from) + " " + RenderInt(list[0]) + "\n" + RenderLines(list[1..], from + 1)
  }

  /** Save_index_file and Save_timestamp_file: the length, then one line per entry. */
  function RenderList(list: seq<int>): string {
    RenderInt(|list|) + "\n" + RenderLines(list, 0)
  }

  function ReadLines(text: string, n: nat): (r: Option<seq<int>>)
    ensures r.Some? ==> |r.value| == n
    decreases n
  {
    if n == 0 then Some([])
    else match ReadInt(text)
      case None => None
      case Some((index, t1)) =>
        match ReadInt(t1)
        case None => None
        case Some((v, t2)) =>
          match ReadLines(t2, n - 1)
          case None => None
          case Some(vs) => Some([v] + vs)
  }

  function ReadList(text: string): Option<seq<int>> {
    match ReadInt(text)
    case None => None
    case Some((len, rest)) => if len < 0 then None else ReadLines(rest, len)
  }

  lemma {:induction false} ReadLinesOf(list: seq<int>, from: nat)
    ensures ReadLines("\n" + RenderLines(list, from), |list|) == Some(list)
  {
    hide RenderInt, ReadInt, RenderLines;
    if list == [] {
    } else {
      var rest := "\n" + RenderLines(list[1..], from + 1);
      LineText(list, from);
      ReadLineOf(from, list[0], rest);
      ReadLinesOf(list[1..], from + 1);
      assert [list[0]] + list[1..] == list;
    }
  }

  lemma LineText(list: seq<int>, from: nat)
    requires list != []
    ensures "\n" + RenderLines(list, from) ==
              ['\n'] + (RenderInt(from) + ([' '] + (RenderInt(list[0]) + ("\n" + RenderLines(list[1..], from + 1)))))
  {
    hide RenderInt;
  }

  lemma ReadLineOf(index: int, v: int, rest: string)
    requires rest != [] && rest[0] == '\n'
    ensures ReadInt(['\n'] + (RenderInt(index) + ([' '] + (RenderInt(v) + rest)))) ==
              Some((index, [' '] + (RenderInt(v) + rest)))
    ensures ReadInt([' '] + (RenderInt(v) + rest)) == Some((v, rest))
  {
    hide RenderInt, ReadInt;
    var tail := RenderInt(v) + rest;
    SkipOne('\n', RenderInt(index) + ([' '] + tail));
    ReadIntOf(index, [' '] + tail);
    SkipOne(' ', tail);
    ReadIntOf(v, rest);
  }

  /** A saved list is read back as it was. */
  lemma ListRoundTrip(list: seq<int>)
    ensures ReadList(RenderList(list)) == Some(list)
  {
    hide RenderInt, ReadInt, RenderLines;
    ReadIntOf(|list|, "\n" + RenderLines(list, 0));
    assert RenderList(list) == RenderInt(|list|) + ("\n" + RenderLines(list, 0));
    ReadLinesOf(list, 0);
  }

  lemma {:induction false} RenderLinesStep(list: seq<int>, i: nat)
    requires i < |list|
    ensures RenderLines(list[i..], i) == RenderInt(i) + " " + RenderInt(list[i]) + "\n" + RenderLines(list[i + 1..], i + 1)
  {
    hide RenderInt;
    assert list[i..][1..] == list[i + 1..];
  }

  /** Save_index_file and Save_timestamp_file. */
  method SaveListFile(list: seq<int>) returns (text: string)
    ensures text == RenderList(list)
  {
    hide RenderInt, RenderLines;
    text := RenderInt(|list|) + "\n";
    ghost var head := text;
    assert list[0..] == list;
    for i := 0 to |list|
      invariant text + RenderLines(list[i..], i) == head + RenderLines(list, 0)
    {
      RenderLinesStep(list, i);
      ghost var line := RenderInt(i) + " " + RenderInt(list[i]) + "\n";
      assert text + (line + RenderLines(list[i + 1..], i + 1)) == (text + line) + RenderLines(list[i + 1..], i + 1);
      text := text + (RenderInt(i) + " " + RenderInt(list[i]) + "\n");
    }
    assert list[|list|..] == [];
    NoLines(|list|);
  }

  lemma NoLines(from: nat)
    ensures RenderLines([], from) == ""
  {
  }

  /** Read_index_file and Read_timestamp_file; the index of a line is read and dropped. */
  method ReadListFile(text: string) returns (r: Option<seq<int>>)
    ensures r == ReadList(text)
  {
    hide ReadInt;
    var header := ReadInt(text);
    if header == None || header.value.0 < 0 {
      return None;
    }
    var (len, rest) := header.value;
    ghost var start := rest;
    var tmp: seq<int> := [];
    assert ReadLines(start, len).Some? ==> tmp + ReadLines(start, len).value == ReadLines(start, len).value;
    while |tmp| < len
      invariant |tmp| <= len
      invariant ReadLines(start, len) ==
                (match ReadLines(rest, len - |tmp|) case None => None case Some(vs) => Some(tmp + vs))
      decreases len - |tmp|
    {
      var index := ReadInt(rest);
      if index == None {
        return None;
      }
      var value := ReadInt(index.value.1);
      if value == None {
        return None;
      }
      ghost var left := ReadLines(value.value.1, len - |tmp| - 1);
      assert left.Some? ==> tmp + ([value.value.0] + left.value) == (tmp + [value.value.0]) + left.value;
      tmp := tmp + [value.value.0];
      rest := value.value.1;
    }
    assert tmp + [] == tmp;
    r := Some(tmp);
  }

  class TrieFile {
    var text: Option<string>

    constructor ()
      ensures text == None
    {
      text := None;
    }

    /** Save_trie_file: the tree is written breadth first, then deleted and made read-only. */
    method SaveTrieFile(trie: Trie<int>) returns (count: nat)
      requires trie.Intact() && trie.valid
      modifies this, trie
      ensures text.Some? && Saved(old(trie.root).value, text.value)
      ensures count == old(trie.size)
      ensures trie.Intact() && !trie.valid && trie.readOnly
    {
      var body;
      count, body := WriteNodes(trie.root.value);
      assert trie.size == Count(trie.root.value);
      text := Some(RenderInt(trie.size) + "\n" + body);
      trie.DeleteTree();
      trie.SetReadOnly();
    }

    /** Read_trie_file: the nodes go into a new array, which becomes the tree. False where the
        program would exit or index outside the array; the trie is then left alone. */
    method ReadTrieFile(trie: Trie<int>) returns (ok: bool)
      requires text.Some?
      modifies trie
      ensures ok == Load(text.value).Some?
      ensures !ok ==> trie.root == old(trie.root) && trie.valid == old(trie.valid) && trie.size == old(trie.size)
      ensures ok ==> trie.root == Load(text.value) && trie.valid && trie.storeInArray
      ensures ok ==> trie.size == |ReadFile(text.value).value|
    {
      hide ReadInt, ReadHead, ReadNodes, TreeAt, Forward;
      var header := ReadInt(text.value);
      if header == None {
        return false;
      }
      var (total, t1) := header.value;
      var head := ReadHead(t1);
      if head == None {
        return false;
      }
      var (father, c, len, t2) := head.value;
      if father != -1 || len != 0 || total < 1 {
        return false;
      }
      var nodes := ReadArray(t2, Flat(c, map[], []), total);
      if nodes == null {
        return false;
      }
      ReadFileForward(text.value);
      trie.root := Some(TreeAt(nodes[..], 0));
      trie.valid, trie.size, trie.storeInArray := true, total, true;
      ok := true;
    }

    /** The loop of Read_trie_file over node_array. */
    static method ReadArray(text: string, first: Flat, total: nat) returns (nodes: array?<Flat>)
      requires total >= 1
      ensures nodes == null <==> ReadNodes(text, [first], total) == None
      ensures nodes != null ==> fresh(nodes) && ReadNodes(text, [first], total) == Some(nodes[..])
    {
      hide ReadHead, ReadValues, Attach;
      var a := new Flat[total](_ => first);
      var rest := text;
      assert a[..1] == [first];
      var i := 1;
      while i < total
        invariant 1 <= i <= total && ReadNodes(rest, a[..i], total) == ReadNodes(text, [first], total)
      {
        var head := ReadHead(rest);
        if head == None {
          return null;
        }
        var (father, c, len, t1) := head.value;
        if !(0 <= father < i) || len < 0 {
          return null;
        }
        var values := ReadValues(t1, len);
        if values == None {
          return null;
        }
        ghost var before := a[..i];
        a[i] := Flat(c, map[], values.value.0);
        if c !in a[father].kids {
          a[father] := a[father].(kids := a[father].kids[c := i]);
        }
        Attached(before, father, Flat(c, map[], values.value.0), a[..i + 1]);
        rest := values.value.1;
        i := i + 1;
      }
      assert a[..total] == a[..];
      nodes := a;
    }

    /** The queue loop. */
    static method WriteNodes(root: Node<int>) returns (count: nat, body: string)
      requires Keyed(root)
      ensures count == Count(root)
      ensures exists nodes, fathers | Listing(root, nodes, fathers, |nodes|) && |nodes| == count ::
                body == RenderNodes(nodes, fathers)
    {
      hide Writing, Expanding, Listing, RenderNodes, Count, Keyed, RenderNode;
      ghost var nodes, fathers := [root], [-1];
      var queue := [SerializationUnit(root, -1)];
      count, body := 0, "";
      WritingStarts(root);
      while queue != []
        invariant Writing(root, nodes, fathers, count, body) && Queued(queue, nodes, fathers, count)
        decreases Pending(nodes[count..])
      {
        var unit := queue[0];
        queue := queue[1..];
        WritingExpands(root, nodes, fathers, count, body);
        ghost var grown, grownFathers;
        queue, grown, grownFathers := Enqueue(root, nodes, fathers, queue, unit.node, count);
        WritingNext(root, nodes, fathers, grown, grownFathers, count, body);
        body := body + RenderNode(unit.father, unit.node);
        nodes, fathers := grown, grownFathers;
        count := count + 1;
      }
      WritingEnds(root, nodes, fathers, count, body);
    }

    /** Queue the children of one node, in whatever order its map gives them. */
    static method Enqueue(ghost root: Node<int>, ghost nodes0: seq<Node<int>>, ghost fathers0: seq<int>,
                          queue0: seq<SerializationUnit>, node: Node<int>, count: nat)
      returns (queue: seq<SerializationUnit>, ghost nodes: seq<Node<int>>, ghost fathers: seq<int>)
      requires |nodes0| == |fathers0| && count < |nodes0| && node == nodes0[count]
      requires Queued(queue0, nodes0, fathers0, count + 1)
      requires Expanding(root, nodes0, fathers0, count, node.kids.Keys)
      ensures Queued(queue, nodes, fathers, count + 1) && nodes0 <= nodes && fathers0 <= fathers
      ensures Expanding(root, nodes, fathers, count, {})
      ensures Pending(nodes[count + 1..]) == Pending(nodes0[count + 1..]) + CountKids(node, node.kids.Keys)
    {
      hide Expanding, Count, Pending, CountKids;
      queue, nodes, fathers := queue0, nodes0, fathers0;
      var keys := node.kids.Keys;
      CountNoKids(node);
      while keys != {}
        invariant keys <= node.kids.Keys && Queued(queue, nodes, fathers, count + 1)
        invariant nodes0 <= nodes && fathers0 <= fathers
        invariant Expanding(root, nodes, fathers, count, keys)
        invariant Pending(nodes[count + 1..]) + CountKids(node, keys)
               == Pending(nodes0[count + 1..]) + CountKids(node, node.kids.Keys)
        decreases keys
      {
        var c :| c in keys;
        assert nodes[count] == nodes0[count];
        ExpandOne(root, nodes, fathers, count, keys, c);
        CountOneKid(node, keys, c);
        PendingAppend(nodes[count + 1..], node.kids[c]);
        assert (nodes + [node.kids[c]])[count + 1..] == nodes[count + 1..] + [node.kids[c]];
        queue := queue + [SerializationUnit(node.kids[c], count)];
        nodes, fathers := nodes + [node.kids[c]], fathers + [count];
        keys := keys - {c};
      }
    }
  }

  lemma CountNoKids(n: Node<int>)
    ensures CountKids(n, {}) == 0
  {
  }

  /** The state of the save loop: `count` nodes written, the rest of the listing queued. */
  ghost predicate Writing(root: Node<int>, nodes: seq<Node<int>>, fathers: seq<int>, count: nat, body: string) {
    && Listing(root, nodes, fathers, count)
    && (forall j | 1 <= j < |nodes| :: fathers[j] < count)
    && (forall j | 0 <= j < |nodes| :: Keyed(nodes[j]))
    && body == RenderNodes(nodes[..count], fathers[..count])
    && count + Pending(nodes[count..]) == Count(root)
  }

  lemma WritingStarts(root: Node<int>)
    requires Keyed(root)
    ensures Writing(root, [root], [-1], 0, "")
  {
    hide Keyed, Count;
    assert [root][0..] == [root];
    assert Pending([root]) == Count(root) + Pending([]);
  }

  lemma WritingExpands(root: Node<int>, nodes: seq<Node<int>>, fathers: seq<int>, count: nat, body: string)
    requires Writing(root, nodes, fathers, count, body) && count < |nodes|
    ensures |nodes| == |fathers| && Expanding(root, nodes, fathers, count, nodes[count].kids.Keys)
  {
    hide Keyed, Count, RenderNodes, Siblings, ChildOf, Listed;
    ExpandNone(root, nodes, fathers, count);
  }

  lemma WritingNext(root: Node<int>, nodes: seq<Node<int>>, fathers: seq<int>,
                    grown: seq<Node<int>>, grownFathers: seq<int>, count: nat, body: string)
    requires Writing(root, nodes, fathers, count, body) && count < |nodes| == |fathers|
    requires nodes <= grown && fathers <= grownFathers && Expanding(root, grown, grownFathers, count, {})
    requires Pending(grown[count + 1..]) == Pending(nodes[count + 1..]) + CountKids(nodes[count], nodes[count].kids.Keys)
    ensures Writing(root, grown, grownFathers, count + 1, body + RenderNode(fathers[count], nodes[count]))
    ensures Pending(grown[count + 1..]) < Pending(nodes[count..])
  {
    hide Keyed, RenderNodes, RenderNode, Siblings, ChildOf, Listed;
    ExpandAll(root, grown, grownFathers, count);
    RenderAppend(nodes[..count], fathers[..count], nodes[count], fathers[count]);
    assert grown[..count + 1] == nodes[..count] + [nodes[count]];
    assert grownFathers[..count + 1] == fathers[..count] + [fathers[count]];
    assert nodes[count..][1..] == nodes[count + 1..];
  }

  lemma WritingEnds(root: Node<int>, nodes: seq<Node<int>>, fathers: seq<int>, count: nat, body: string)
    requires Writing(root, nodes, fathers, count, body) && count == |nodes| == |fathers|
    ensures Listing(root, nodes, fathers, |nodes|) && count == Count(root) && body == RenderNodes(nodes, fathers)
  {
    hide Keyed, RenderNodes, Siblings, ChildOf, Listed, Count;
    assert nodes[..count] == nodes && fathers[..count] == fathers && nodes[count..] == [];
  }

  lemma Attached(nodes: seq<Flat>, father: int, n: Flat, after: seq<Flat>)
    requires 0 <= father < |nodes| && |after| == |nodes| + 1 && after[|nodes|] == n
    requires forall k | 0 <= k < |nodes| && k != father :: after[k] == nodes[k]
    requires after[father] == if n.c in nodes[father].kids then nodes[father]
                              else nodes[father].(kids := nodes[father].kids[n.c := |nodes|])
    ensures after == Attach(nodes, father, n)
  {
  }

  /** What Read_trie_file makes of a saved clean tree: that tree, with size_ its number of nodes. */
  lemma LoadedSize(root: Node<int>, text: string)
    requires root.c == ROOT && root.values == [] && Saved(root, text) && WordsWithoutSpaces(root)
    ensures Load(text) == Some(root) && |ReadFile(text).value| == Count(root)
  {
    hide RenderInt, RenderNodes, ReadFile, Siblings, ChildOf, Listed, Load;
    var nodes, fathers :| Listing(root, nodes, fathers, |nodes|) && |nodes| == Count(root)
                          && text == RenderInt(|nodes|) + "\n" + RenderNodes(nodes, fathers);
    LoadsBack(root, nodes, fathers);
    CleanListing(root, nodes, fathers);
    ReadFileOf(root, nodes, fathers);
  }
}
