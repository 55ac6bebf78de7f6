/** The dictionary tree behind both indexes.  A node's character map owns its children, so a
    tree is a value; Trie is the object that holds and replaces it. */
module Tries {
  import opened Wrappers

  datatype Node<V> = Node(c: char, kids: map<char, Node<V>>, values: seq<V>)

  /** The character of the root. */
  const ROOT := '@'

  /** Keyword tries fold ASCII capitals on the way in. */
  function FoldChar(lowercase: bool, c: char): char {
    if lowercase && 'A' <= c <= 'Z' then c - 'A' + 'a' else c
  }

  function Fold(lowercase: bool, word: string): (r: string)
    ensures |r| == |word|
  {
    if word == [] then [] else [FoldChar(lowercase, word[0])] + Fold(lowercase, word[1..])
  }

  /** Folding adds 32 to the codes 65 to 90, those of the capitals, and keeps every other character. */
  lemma {:induction false} FoldByCode(lowercase: bool, word: string, k: nat)
    requires k < |word|
    ensures Fold(lowercase, word)[k] as int ==
              word[k] as int + if lowercase && 65 <= word[k] as int <= 90 then 32 else 0
  {
    if k > 0 {
      FoldByCode(lowercase, word[1..], k - 1);
      assert word[1..][k - 1] == word[k];
    }
  }

  /** TrieNode::Insert: the node afterwards and how much size_ grows. */
  function InsertNode<V>(lowercase: bool, n: Node<V>, word: string, v: V): (r: (Node<V>, nat))
    decreases |word|
  {
    if word == [] then (n.(values := n.values + [v]), 0)
    else
      var c := FoldChar(lowercase, word[0]);
      var (kid, grown) := if c in n.kids then (n.kids[c], 0) else (Node(c, map[], []), 1);
      var (kid', more) := InsertNode(lowercase, kid, word[1..], v);
      (n.(kids := n.kids[c := kid']), grown + more)
  }

  /** TrieNode::Search. */
  function SearchNode<V>(n: Node<V>, word: string): Option<Node<V>>
    decreases |word|
  {
    if word == [] then Some(n)
    else if word[0] in n.kids then SearchNode(n.kids[word[0]], word[1..])
    else None
  }

  /** Trie::Search on a valid trie: the value list of the node the word leads to. */
  function Lookup<V>(n: Node<V>, word: string): Option<seq<V>> {
    match SearchNode(n, word)
    case None => None
    case Some(m) => Some(m.values)
  }

  // ---- size ----

  ghost function Count<V>(n: Node<V>): nat
    decreases n, 1
  {
    1 + CountKids(n, n.kids.Keys)
  }

  ghost function CountKids<V>(n: Node<V>, keys: set<char>): nat
    requires keys <= n.kids.Keys
    decreases n, 0, |keys|
  {
    if keys == {} then 0
    else
      var c :| c in keys;
      Count(n.kids[c]) + CountKids(n, keys - {c})
  }

  /** The sum does not depend on the order the children are taken in. */
  lemma {:induction false} CountOneKid<V>(n: Node<V>, keys: set<char>, c: char)
    requires keys <= n.kids.Keys && c in keys
    ensures CountKids(n, keys) == Count(n.kids[c]) + CountKids(n, keys - {c})
    decreases |keys|
  {
    var d :| d in keys && CountKids(n, keys) == Count(n.kids[d]) + CountKids(n, keys - {d});
    if d != c {
      CountOneKid(n, keys - {d}, c);
      CountOneKid(n, keys - {c}, d);
      assert keys - {d} - {c} == keys - {c} - {d};
    }
  }

  lemma {:induction false} CountSameKids<V>(n: Node<V>, m: Node<V>, keys: set<char>)
    requires keys <= n.kids.Keys && keys <= m.kids.Keys && forall c | c in keys :: n.kids[c] == m.kids[c]
    ensures CountKids(n, keys) == CountKids(m, keys)
    decreases |keys|
  {
    if keys != {} {
      var c :| c in keys && CountKids(n, keys) == Count(n.kids[c]) + CountKids(n, keys - {c});
      CountSameKids(n, m, keys - {c});
      CountOneKid(m, keys, c);
    }
  }

  /** size_ grows by exactly the number of nodes an insertion adds. */
  lemma {:induction false} InsertCounts<V>(lowercase: bool, n: Node<V>, word: string, v: V)
    ensures var (n', grown) := InsertNode(lowercase, n, word, v); Count(n') == Count(n) + grown
    decreases |word|
  {
    var (n', grown) := InsertNode(lowercase, n, word, v);
    if word == [] {
      CountSameKids(n, n', n.kids.Keys);
    } else {
      var c := FoldChar(lowercase, word[0]);
      var kid := if c in n.kids then n.kids[c] else Node(c, map[], []);
      InsertCounts(lowercase, kid, word[1..], v);
      CountOneKid(n', n'.kids.Keys, c);
      var others := n'.kids.Keys - {c};
      CountSameKids(n, n', others);
      if c in n.kids {
        CountOneKid(n, n.kids.Keys, c);
        assert n.kids.Keys - {c} == others;
      } else {
        assert n.kids.Keys == others;
      }
    }
  }

  // ---- what a search finds ----

  /** Inserting a word adds its value to the folded word and makes every prefix of it present;
      every other word is looked up as before. */
  lemma {:induction false} LookupInsert<V>(lowercase: bool, n: Node<V>, word: string, v: V, x: string)
    ensures var w := Fold(lowercase, word); var n' := InsertNode(lowercase, n, word, v).0;
            Lookup(n', x) ==
              if x == w then Some((if Lookup(n, x).Some? then Lookup(n, x).value else []) + [v])
              else if x <= w && Lookup(n, x).None? then Some([])
              else Lookup(n, x)
    decreases |word|
  {
    var w := Fold(lowercase, word);
    if word != [] && x != [] && x[0] == w[0] {
      var c := w[0];
      var kid := if c in n.kids then n.kids[c] else Node(c, map[], []);
      LookupInsert(lowercase, kid, word[1..], v, x[1..]);
      assert x == [x[0]] + x[1..];
      assert w == [c] + w[1..];
      if c !in n.kids && x[1..] != [] {
        assert Lookup(kid, x[1..]).None?;
      }
    }
  }

  /** Every child is filed under its own character. */
  ghost predicate Keyed<V>(n: Node<V>) {
    forall c | c in n.kids :: n.kids[c].c == c && Keyed(n.kids[c])
  }

  lemma {:induction false} InsertKeyed<V>(lowercase: bool, n: Node<V>, word: string, v: V)
    requires Keyed(n)
    ensures Keyed(InsertNode(lowercase, n, word, v).0) && InsertNode(lowercase, n, word, v).0.c == n.c
    decreases |word|
  {
    if word != [] {
      var c := FoldChar(lowercase, word[0]);
      InsertKeyed(lowercase, if c in n.kids then n.kids[c] else Node(c, map[], []), word[1..], v);
    }
  }

  /** push_back on the value list a search has found. */
  function PushNode<V>(n: Node<V>, word: string, v: V): Node<V>
    requires SearchNode(n, word).Some?
    decreases |word|
  {
    if word == [] then n.(values := n.values + [v])
    else n.(kids := n.kids[word[0] := PushNode(n.kids[word[0]], word[1..], v)])
  }

  /** On an existing word that is what an insertion does, and no node is added. */
  lemma {:induction false} PushIsInsert<V>(n: Node<V>, word: string, v: V)
    requires SearchNode(n, word).Some?
    ensures InsertNode(false, n, word, v) == (PushNode(n, word, v), 0)
    decreases |word|
  {
    if word != [] { PushIsInsert(n.kids[word[0]], word[1..], v); }
  }

  class Trie<V> {
    const lowercase: bool
    var root: Option<Node<V>>
    var size: int
    var valid: bool
    var storeInArray: bool
    var readOnly: bool

    /** size_ is the number of nodes, and 1 when there is no tree. */
    ghost predicate Intact()
      reads this
    {
      && valid == root.Some?
      && (root.Some? ==> root.value.c == ROOT && Keyed(root.value) && size == Count(root.value))
      && (root.None? ==> size == 1)
    }

    constructor (lower: bool)
      ensures Intact() && lowercase == lower && valid && !readOnly && !storeInArray && root == Some(Node(ROOT, map[], []))
    {
      lowercase := lower;
      root, size, valid := Some(Node(ROOT, map[], [])), 1, true;
      storeInArray, readOnly := false, false;
    }

    /** Set_valid: a root is made when there is none. */
    method SetValid()
      requires Intact()
      modifies this
      ensures Intact() && valid && size == old(size) && storeInArray == old(storeInArray) && readOnly == old(readOnly)
      ensures root == if old(root).Some? then old(root) else Some(Node(ROOT, map[], []))
    {
      if root == None {
        root := Some(Node(ROOT, map[], []));
      }
      valid := true;
    }

    method SetReadOnly()
      modifies this`readOnly
      ensures readOnly
    {
      readOnly := true;
    }

    method Insert(word: string, v: V)
      requires Intact()
      modifies this`root, this`size
      ensures Intact() && root.Some? == old(root).Some?
      ensures readOnly || !valid ==> root == old(root)
      ensures valid && !readOnly ==> root == Some(InsertNode(lowercase, old(root).value, word, v).0)
    {
      if valid && !readOnly {
        var (n, grown) := InsertNode(lowercase, root.value, word, v);
        InsertCounts(lowercase, root.value, word, v);
        InsertKeyed(lowercase, root.value, word, v);
        root, size := Some(n), size + grown;
      }
    }

    method Search(word: string) returns (r: Option<seq<V>>)
      requires Intact()
      ensures r == if valid then Lookup(root.value, word) else None
    {
      if !valid {
        return None;
      }
      r := Lookup(root.value, word);
    }

    /** Delete_tree. */
    method DeleteTree()
      modifies this
      ensures Intact() && !valid && root == None && !storeInArray && readOnly == old(readOnly)
    {
      valid, root, storeInArray, size := false, None, false, 1;
    }

    /** push_back through the list that Search returned. */
    method PushBack(word: string, v: V)
      requires Intact() && root.Some? && SearchNode(root.value, word).Some?
      modifies this`root
      ensures Intact() && root == Some(InsertNode(false, old(root).value, word, v).0)
    {
      PushIsInsert(root.value, word, v);
      InsertCounts(false, root.value, word, v);
      InsertKeyed(false, root.value, word, v);
      root := Some(PushNode(root.value, word, v));
    }
  }
}
