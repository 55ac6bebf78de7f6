/** Log records and what the program derives from them: their text, their offsets, and the two
    tries of a bulk, with the plain scan each index has to agree with. */
module Logs {
  import opened Wrappers
  import opened Text
  import opened Tries
  import opened LogFile
  import opened Search

  datatype Log = Log(key: string, time: nat, content: string)

  // ---- words ----

  const DELIMITERS := " ~`!@#$%^&*()+={}[]\":;,.<>?/\\\t\n"

  predicate IsDelimiter(c: char) {
    c in DELIMITERS
  }

  /** What separates words: tab, newline, and the printable ASCII characters that are no letter, no
      digit and none of '-', '_', '\'' and '|'. */
  lemma SeparatorsByCode(c: char)
    ensures var v := c as int;
            IsDelimiter(c) <==>
              v == 9 || v == 10 ||
              (32 <= v <= 126 && !(48 <= v <= 57) && !(65 <= v <= 90) && !(97 <= v <= 122) && v !in {39, 45, 95, 124})
  {
  }

  /** Length of the word at the head of s. */
  function WordRun(s: string): (n: nat)
    ensures n <= |s| && (forall k | 0 <= k < n :: !IsDelimiter(s[k])) && (n < |s| ==> IsDelimiter(s[n]))
  {
    if s != [] && !IsDelimiter(s[0]) then 1 + WordRun(s[1..]) else 0
  }

  /** The words a strtok_r loop over s delivers. */
  function Tokens(s: string): (r: seq<string>)
    ensures forall k | 0 <= k < |r| :: r[k] != [] && forall i | 0 <= i < |r[k]| :: !IsDelimiter(r[k][i]) && r[k][i] in s
    decreases |s|
  {
    if s == [] then []
    else if IsDelimiter(s[0]) then Tokens(s[1..])
    else [s[..WordRun(s)]] + Tokens(s[WordRun(s)..])
  }

  /** Every maximal stretch without a delimiter is a token, in its place. */
  lemma {:induction false} TokensAt(a: string, w: string, b: string)
    requires w != [] && (forall k | 0 <= k < |w| :: !IsDelimiter(w[k]))
    requires (a == [] || IsDelimiter(a[|a| - 1])) && (b == [] || IsDelimiter(b[0]))
    ensures Tokens(a + w + b) == Tokens(a) + [w] + Tokens(b)
    decreases |a|
  {
    hide IsDelimiter, Tokens, WordRun;
    var s := a + w + b;
    if a == [] {
      assert s == w + b;
      FirstToken(s, |w|);
      NoToken(a);
      assert s[..|w|] == w && s[|w|..] == b;
    } else if IsDelimiter(a[0]) {
      assert s[1..] == a[1..] + w + b;
      TokensAt(a[1..], w, b);
      NoToken(a);
      NoToken(s);
    } else {
      var r := WordRun(a);
      FirstToken(a, r);
      FirstToken(s, r);
      assert s[..r] == a[..r] && s[r..] == a[r..] + w + b;
      TokensAt(a[r..], w, b);
    }
  }

  lemma NoToken(s: string)
    ensures s == [] ==> Tokens(s) == []
    ensures s != [] && IsDelimiter(s[0]) ==> Tokens(s) == Tokens(s[1..])
  {
    hide IsDelimiter;
  }

  /** A text that starts with a word: that word, then the tokens of the rest. */
  lemma FirstToken(s: string, n: nat)
    requires 0 < n <= |s| && (forall k | 0 <= k < n :: !IsDelimiter(s[k])) && (n < |s| ==> IsDelimiter(s[n]))
    ensures Tokens(s) == [s[..n]] + Tokens(s[n..])
  {
    hide IsDelimiter;
    WordRunIs(s, n);
  }

  lemma {:induction false} WordRunIs(s: string, n: nat)
    requires n <= |s| && (forall k | 0 <= k < n :: !IsDelimiter(s[k])) && (n < |s| ==> IsDelimiter(s[n]))
    ensures WordRun(s) == n
  {
    hide IsDelimiter;
    if n > 0 { WordRunIs(s[1..], n - 1); }
  }

  // ---- the tries of a bulk ----

  function Empty(): Node<int> {
    Node(ROOT, map[], [])
  }

  function KeyTrieOf(logs: seq<Log>): Node<int> {
    if logs == [] then Empty()
    else
      var n := |logs| - 1;
      InsertNode(false, KeyTrieOf(logs[..n]), logs[n].key, n).0
  }

  function InsertWords(n: Node<int>, words: seq<string>, serial: int): Node<int>
    decreases |words|
  {
    if words == [] then n
    else InsertNode(true, InsertWords(n, words[..|words| - 1], serial), words[|words| - 1], serial).0
  }

  function WordTrieOf(logs: seq<Log>): Node<int> {
    if logs == [] then Empty()
    else
      var n := |logs| - 1;
      InsertWords(WordTrieOf(logs[..n]), Tokens(logs[n].content), n)
  }

  // ---- the scans ----

  /** Serials of the logs with key x, in append order. */
  function KeySerials(logs: seq<Log>, x: string): seq<int> {
    if logs == [] then []
    else
      var n := |logs| - 1;
      KeySerials(logs[..n], x) + (if logs[n].key == x then [n] else [])
  }

  function Repeat(v: int, times: nat): (r: seq<int>)
    ensures |r| == times && forall k | 0 <= k < times :: r[k] == v
  {
    seq(times, _ => v)
  }

  /** How many of the words fold to x. */
  function Occurrences(words: seq<string>, x: string): nat {
    if words == [] then 0
    else Occurrences(words[..|words| - 1], x) + (if Fold(true, words[|words| - 1]) == x then 1 else 0)
  }

  /** Serials of the logs with a word that folds to x, once per such word, in append order. */
  function WordSerials(logs: seq<Log>, x: string): seq<int> {
    if logs == [] then []
    else
      var n := |logs| - 1;
      WordSerials(logs[..n], x) + Repeat(n, Occurrences(Tokens(logs[n].content), x))
  }

  ghost predicate SomeKeyStarts(logs: seq<Log>, x: string) {
    x == [] || exists k | 0 <= k < |logs| :: x <= logs[k].key
  }

  ghost predicate SomeWordStarts(words: seq<string>, x: string) {
    exists k | 0 <= k < |words| :: x <= Fold(true, words[k])
  }

  ghost predicate SomeLogStarts(logs: seq<Log>, x: string) {
    x == [] || exists k | 0 <= k < |logs| :: SomeWordStarts(Tokens(logs[k].content), x)
  }

  // ---- index against scan ----

  lemma {:induction false} FoldKeys(word: string)
    ensures Fold(false, word) == word
  {
    if word != [] { FoldKeys(word[1..]); }
  }

  lemma NoLogs(x: string)
    ensures SomeKeyStarts([], x) <==> x == []
    ensures SomeLogStarts([], x) <==> x == []
    ensures !SomeWordStarts([], x)
    ensures Lookup(Empty(), x) == if x == [] then Some([]) else None
  {
  }

  lemma SomeKeyStartsLast(logs: seq<Log>, x: string)
    requires logs != []
    ensures SomeKeyStarts(logs, x) <==> SomeKeyStarts(logs[..|logs| - 1], x) || x <= logs[|logs| - 1].key
  {
    var front := logs[..|logs| - 1];
    if k :| 0 <= k < |front| && x <= front[k].key { assert x <= logs[k].key; }
  }

  /** The key index answers as the scan does: null exactly for a non-prefix of every key. */
  lemma {:induction false} KeyIndexIsScan(logs: seq<Log>, x: string)
    ensures Lookup(KeyTrieOf(logs), x) == if SomeKeyStarts(logs, x) then Some(KeySerials(logs, x)) else None
  {
    hide InsertNode, Fold, SomeKeyStarts, Lookup;
    if logs == [] {
      NoLogs(x);
    } else {
      var n := |logs| - 1;
      KeyIndexIsScan(logs[..n], x);
      LookupInsert(false, KeyTrieOf(logs[..n]), logs[n].key, n, x);
      FoldKeys(logs[n].key);
      if !SomeKeyStarts(logs[..n], x) { NoKeyNoSerial(logs[..n], x); }
      SomeKeyStartsLast(logs, x);
      var found := KeySerials(logs[..n], x);
      assert found + [] == found && [] + [n] == [n];
    }
  }

  lemma {:induction false} NoKeyNoSerial(logs: seq<Log>, x: string)
    requires !SomeKeyStarts(logs, x)
    ensures KeySerials(logs, x) == []
  {
    if logs != [] {
      var n := |logs| - 1;
      assert !(x <= logs[n].key);
      assert forall k | 0 <= k < n :: logs[..n][k] == logs[k];
      NoKeyNoSerial(logs[..n], x);
    }
  }

  lemma SomeWordStartsLast(words: seq<string>, x: string)
    requires words != []
    ensures SomeWordStarts(words, x) <==> SomeWordStarts(words[..|words| - 1], x) || x <= Fold(true, words[|words| - 1])
  {
    hide Fold;
    var front := words[..|words| - 1];
    if k :| 0 <= k < |front| && x <= Fold(true, front[k]) { assert words[k] == front[k]; }
  }

  lemma SomeLogStartsLast(logs: seq<Log>, x: string)
    requires logs != []
    ensures SomeLogStarts(logs, x) <==>
              SomeLogStarts(logs[..|logs| - 1], x) || SomeWordStarts(Tokens(logs[|logs| - 1].content), x)
  {
    hide SomeWordStarts, Tokens;
    var front := logs[..|logs| - 1];
    if k :| 0 <= k < |front| && SomeWordStarts(Tokens(front[k].content), x) { assert logs[k] == front[k]; }
  }

  /** Values already found, or none. */
  function Found(r: Option<seq<int>>): seq<int> {
    if r.Some? then r.value else []
  }

  lemma RepeatMore(s: seq<int>, v: int, k: nat)
    ensures s + Repeat(v, k) + [v] == s + Repeat(v, k + 1) && s + Repeat(v, 0) == s
  {
    assert Repeat(v, k + 1) == Repeat(v, k) + [v];
  }

  lemma {:induction false} InsertWordsLookup(n: Node<int>, words: seq<string>, serial: int, x: string)
    ensures Lookup(InsertWords(n, words, serial), x) ==
              if Lookup(n, x).None? && !SomeWordStarts(words, x) then None
              else Some(Found(Lookup(n, x)) + Repeat(serial, Occurrences(words, x)))
  {
    hide InsertNode, Lookup, Fold, SomeWordStarts, Repeat;
    RepeatMore(Found(Lookup(n, x)), serial, 0);
    if words == [] {
      NoLogs(x);
    } else {
      var m := |words| - 1;
      var front := words[..m];
      InsertWordsLookup(n, front, serial, x);
      LookupInsert(true, InsertWords(n, front, serial), words[m], serial, x);
      SomeWordStartsLast(words, x);
      if !SomeWordStarts(front, x) { NoWordNoOccurrence(front, x); }
      RepeatMore(Found(Lookup(n, x)), serial, Occurrences(front, x));
    }
  }

  lemma {:induction false} NoWordNoOccurrence(words: seq<string>, x: string)
    requires !SomeWordStarts(words, x)
    ensures Occurrences(words, x) == 0
  {
    if words != [] {
      var m := |words| - 1;
      assert !(x <= Fold(true, words[m]));
      NoWordNoOccurrence(words[..m], x);
    }
  }

  /** The keyword index answers as the scan does, with one serial per occurrence. */
  lemma {:induction false} WordIndexIsScan(logs: seq<Log>, x: string)
    ensures Lookup(WordTrieOf(logs), x) == if SomeLogStarts(logs, x) then Some(WordSerials(logs, x)) else None
  {
    hide InsertWords, Lookup, SomeWordStarts, SomeLogStarts, Repeat, Tokens;
    if logs == [] {
      NoLogs(x);
    } else {
      var n := |logs| - 1;
      var words := Tokens(logs[n].content);
      WordIndexIsScan(logs[..n], x);
      InsertWordsLookup(WordTrieOf(logs[..n]), words, n, x);
      if !SomeLogStarts(logs[..n], x) { NoLogNoSerial(logs[..n], x); }
      SomeLogStartsLast(logs, x);
    }
  }

  lemma {:induction false} NoLogNoSerial(logs: seq<Log>, x: string)
    requires !SomeLogStarts(logs, x)
    ensures WordSerials(logs, x) == []
  {
    if logs != [] {
      var n := |logs| - 1;
      NoWordNoOccurrence(Tokens(logs[n].content), x);
      assert forall k | 0 <= k < n :: logs[..n][k] == logs[k];
      NoLogNoSerial(logs[..n], x);
    }
  }

  // ---- the serial lists are what the searches need ----

  ghost predicate Below(s: seq<int>, n: int) {
    forall k | 0 <= k < |s| :: 0 <= s[k] < n
  }

  lemma KeySerialsLast(logs: seq<Log>, x: string)
    ensures KeySerials(logs, x) == if logs == [] then [] else
              KeySerials(logs[..|logs| - 1], x) + (if logs[|logs| - 1].key == x then [|logs| - 1] else [])
  {
  }

  lemma {:induction false} KeySerialsSorted(logs: seq<Log>, x: string)
    ensures Sorted(KeySerials(logs, x)) && Below(KeySerials(logs, x), |logs|)
    ensures forall k | 0 <= k < |KeySerials(logs, x)| :: logs[KeySerials(logs, x)[k]].key == x
  {
    hide KeySerials;
    KeySerialsLast(logs, x);
    if logs != [] { KeySerialsSorted(logs[..|logs| - 1], x); }
  }

  lemma {:induction false} WordSerialsSorted(logs: seq<Log>, x: string)
    ensures Sorted(WordSerials(logs, x)) && Below(WordSerials(logs, x), |logs|)
  {
    if logs != [] { WordSerialsSorted(logs[..|logs| - 1], x); }
  }

  lemma {:induction false} RepeatCount(v: int, times: nat, w: int)
    ensures multiset(Repeat(v, times))[w] == if v == w then times else 0
  {
    if times > 0 {
      assert Repeat(v, times) == Repeat(v, times - 1) + [v];
      RepeatCount(v, times - 1, w);
    }
  }

  /** A serial is listed for x as often as a word of that log folds to x. */
  lemma {:induction false} WordSerialsCount(logs: seq<Log>, x: string, k: nat)
    requires k < |logs|
    ensures multiset(WordSerials(logs, x))[k] == Occurrences(Tokens(logs[k].content), x)
  {
    var n := |logs| - 1;
    RepeatCount(n, Occurrences(Tokens(logs[n].content), x), k);
    if k < n {
      WordSerialsCount(logs[..n], x, k);
    } else {
      WordSerialsSorted(logs[..n], x);
      assert n !in WordSerials(logs[..n], x);
    }
  }

  lemma {:induction false} OccursIff(words: seq<string>, x: string)
    ensures Occurrences(words, x) > 0 <==> exists k :: 0 <= k < |words| && Fold(true, words[k]) == x
  {
    hide Fold;
    if words != [] {
      var m := |words| - 1;
      OccursIff(words[..m], x);
      if Fold(true, words[m]) != x && exists k :: 0 <= k < |words| && Fold(true, words[k]) == x {
        var k :| 0 <= k < |words| && Fold(true, words[k]) == x;
        assert words[..m][k] == words[k];
      }
    }
  }

  /** Some word of some log folds to x. */
  ghost predicate WordIn(logs: seq<Log>, x: string) {
    exists k :: 0 <= k < |logs| && Occurrences(Tokens(logs[k].content), x) > 0
  }

  lemma {:induction false} WordInIff(logs: seq<Log>, x: string)
    ensures WordIn(logs, x) <==> WordSerials(logs, x) != []
  {
    hide Occurrences, Tokens, WordIn;
    WordInLast(logs, x);
    if logs != [] { WordInIff(logs[..|logs| - 1], x); }
  }

  lemma WordInLast(logs: seq<Log>, x: string)
    ensures WordIn(logs, x) <==>
              logs != [] && (WordIn(logs[..|logs| - 1], x) || Occurrences(Tokens(logs[|logs| - 1].content), x) > 0)
  {
    hide Occurrences, Tokens;
    if logs != [] {
      var front := logs[..|logs| - 1];
      if k :| 0 <= k < |front| && Occurrences(Tokens(front[k].content), x) > 0 { assert logs[k] == front[k]; }
      if k :| 0 <= k < |logs| && Occurrences(Tokens(logs[k].content), x) > 0 {
        assert k < |front| ==> front[k] == logs[k];
      }
    }
  }

  // ---- a query of several words ----

  function Least(a: nat, b: nat): nat {
    if a <= b then a else b
  }

  /** How often all the words occur among the tokens: the least of their numbers. */
  function CommonOccurrences(words: seq<string>, tokens: seq<string>): nat
    requires words != []
  {
    if |words| == 1 then Occurrences(tokens, words[0])
    else Least(Occurrences(tokens, words[0]), CommonOccurrences(words[1..], tokens))
  }

  /** The scan for logs with all the words, each log as often as they all occur in it. */
  function JoinSerials(logs: seq<Log>, words: seq<string>): seq<int>
    requires words != []
  {
    if logs == [] then []
    else
      var n := |logs| - 1;
      JoinSerials(logs[..n], words) + Repeat(n, CommonOccurrences(words, Tokens(logs[n].content)))
  }

  /** x is the word with the codes of its capitals, 65 to 90, raised by 32. */
  ghost predicate LowerOf(x: string, word: string) {
    && |x| == |word|
    && forall k | 0 <= k < |x| ::
         x[k] as int == if 65 <= word[k] as int <= 90 then word[k] as int + 32 else word[k] as int
  }

  lemma FoldIsLower(word: string, x: string)
    ensures Fold(true, word) == x <==> LowerOf(x, word)
  {
    hide Fold;
    forall k | 0 <= k < |word|
      ensures Fold(true, word)[k] as int == word[k] as int + if 65 <= word[k] as int <= 90 then 32 else 0
    {
      FoldByCode(true, word, k);
    }
    if LowerOf(x, word) {
      assert forall k | 0 <= k < |x| :: x[k] as int == Fold(true, word)[k] as int;
    }
  }

  /** How often a word occurs: the number of tokens it is the lower-case form of. */
  lemma {:induction false} OccurrencesCount(tokens: seq<string>, x: string)
    ensures Occurrences(tokens, x) == |set k | 0 <= k < |tokens| && LowerOf(x, tokens[k])|
  {
    hide LowerOf;
    if tokens != [] {
      var n := |tokens| - 1;
      var front := set k | 0 <= k < n && LowerOf(x, tokens[..n][k]);
      var all := set k | 0 <= k < |tokens| && LowerOf(x, tokens[k]);
      OccurrencesCount(tokens[..n], x);
      FoldIsLower(tokens[n], x);
      assert front == set k | 0 <= k < |tokens[..n]| && LowerOf(x, tokens[..n][k]);
      assert all == if LowerOf(x, tokens[n]) then front + {n} else front;
    }
  }

  /** A log is hit exactly when every word of the query is the lower-case form of one of its words. */
  lemma {:induction false} HitIff(words: seq<string>, tokens: seq<string>)
    requires words != []
    ensures CommonOccurrences(words, tokens) > 0 <==>
              forall i | 0 <= i < |words| :: exists k :: 0 <= k < |tokens| && LowerOf(words[i], tokens[k])
  {
    hide LowerOf, Occurrences, Fold;
    OccursIff(tokens, words[0]);
    forall k | 0 <= k < |tokens| { FoldIsLower(tokens[k], words[0]); }
    if |words| > 1 {
      var rest := words[1..];
      HitIff(rest, tokens);
      assert forall i | 0 <= i < |rest| :: rest[i] == words[i + 1];
      if CommonOccurrences(words, tokens) > 0 {
        forall i | 0 <= i < |words| ensures exists k :: 0 <= k < |tokens| && LowerOf(words[i], tokens[k]) {
          if i > 0 { assert words[i] == rest[i - 1]; }
        }
      }
    }
  }

  ghost function SerialLists(logs: seq<Log>, words: seq<string>): (r: seq<seq<int>>)
    ensures |r| == |words| && forall i | 0 <= i < |r| :: r[i] == WordSerials(logs, words[i])
  {
    seq(|words|, i requires 0 <= i < |words| => WordSerials(logs, words[i]))
  }

  lemma {:induction false} CommonSerials(logs: seq<Log>, words: seq<string>, k: int)
    requires words != []
    ensures Common(SerialLists(logs, words), k) ==
              if 0 <= k < |logs| then CommonOccurrences(words, Tokens(logs[k].content)) else 0
  {
    hide Occurrences, Tokens, WordSerials, Repeat;
    var lists := SerialLists(logs, words);
    WordSerialsSorted(logs, words[0]);
    if 0 <= k < |logs| { WordSerialsCount(logs, words[0], k); }
    if |words| > 1 {
      assert lists[1..] == SerialLists(logs, words[1..]);
      CommonSerials(logs, words[1..], k);
    }
    if !(0 <= k < |logs|) { assert k !in lists[0]; }
  }

  lemma {:induction false} JoinSerialsCount(logs: seq<Log>, words: seq<string>, k: int)
    requires words != []
    ensures Sorted(JoinSerials(logs, words)) && Below(JoinSerials(logs, words), |logs|)
    ensures multiset(JoinSerials(logs, words))[k] ==
              if 0 <= k < |logs| then CommonOccurrences(words, Tokens(logs[k].content)) else 0
  {
    hide CommonOccurrences, Tokens;
    if logs != [] {
      var n := |logs| - 1;
      JoinSerialsCount(logs[..n], words, k);
      RepeatCount(n, CommonOccurrences(words, Tokens(logs[n].content)), k);
    }
  }

  /** The intersection of the serial lists of the words is what the scan finds. */
  lemma JoinIsScan(logs: seq<Log>, words: seq<string>, r: seq<int>)
    requires words != [] && IsIntersection(SerialLists(logs, words), r)
    ensures r == JoinSerials(logs, words)
  {
    hide Common, CommonOccurrences, SerialLists, JoinSerials;
    JoinSerialsCount(logs, words, 0);
    forall v ensures multiset(r)[v] == multiset(JoinSerials(logs, words))[v] {
      CommonSerials(logs, words, v);
      JoinSerialsCount(logs, words, v);
    }
    SortedUnique(r, JoinSerials(logs, words));
  }

  // ---- clean words survive the trie file ----

  /** No whitespace but the blanks, tabs and newlines that separate words. */
  predicate NoOddSpaceIn(s: string) {
    '\r' !in s && '\U{0B}' !in s && '\U{0C}' !in s
  }

  ghost predicate Clean(log: Log) {
    NoSpaceIn(log.key) && NoOddSpaceIn(log.content)
  }

  ghost predicate AllClean(logs: seq<Log>) {
    forall k | 0 <= k < |logs| :: Clean(logs[k])
  }

  lemma PrefixNoSpace(x: string, w: string)
    requires x <= w && NoSpaceIn(w)
    ensures NoSpaceIn(x)
  {
    assert forall k | 0 <= k < |x| :: x[k] == w[k];
  }

  lemma {:induction false} FoldNoSpace(w: string)
    requires NoSpaceIn(w)
    ensures NoSpaceIn(Fold(true, w))
  {
    if w != [] {
      assert forall k | 0 <= k < |w[1..]| :: w[1..][k] == w[k + 1];
      FoldNoSpace(w[1..]);
      assert !IsSpace(w[0]);
    }
  }

  lemma TokensNoSpace(content: string, k: nat)
    requires NoOddSpaceIn(content) && k < |Tokens(content)|
    ensures NoSpaceIn(Tokens(content)[k])
  {
    hide Tokens, WordRun;
    var w := Tokens(content)[k];
    forall i | 0 <= i < |w| ensures !IsSpace(w[i]) {
      assert !IsDelimiter(w[i]) && w[i] in content;
      SpacesAreDelimiters(w[i]);
    }
  }

  lemma SpacesAreDelimiters(c: char)
    ensures c == ' ' || c == '\t' || c == '\n' ==> IsDelimiter(c)
  {
    assert DELIMITERS[0] == ' ' && DELIMITERS[|DELIMITERS| - 2] == '\t' && DELIMITERS[|DELIMITERS| - 1] == '\n';
  }

  /** The key trie survives its file exactly if no key has whitespace. */
  lemma KeyTrieClean(logs: seq<Log>)
    ensures WordsWithoutSpaces(KeyTrieOf(logs)) <==> forall k | 0 <= k < |logs| :: NoSpaceIn(logs[k].key)
  {
    hide KeyTrieOf, NoSpaceIn;
    if forall k | 0 <= k < |logs| :: NoSpaceIn(logs[k].key) {
      forall x | SearchNode(KeyTrieOf(logs), x).Some? ensures NoSpaceIn(x) {
        KeyIndexIsScan(logs, x);
        NothingNoSpace();
        if x != [] {
          var k :| 0 <= k < |logs| && x <= logs[k].key;
          PrefixNoSpace(x, logs[k].key);
        }
      }
    } else {
      var k :| 0 <= k < |logs| && !NoSpaceIn(logs[k].key);
      KeyIndexIsScan(logs, logs[k].key);
      assert SearchNode(KeyTrieOf(logs), logs[k].key).Some?;
    }
  }

  lemma NothingNoSpace()
    ensures NoSpaceIn([])
  {
  }

  /** The word trie survives its file exactly if no content has a carriage return, a vertical tab
      or a form feed: any other whitespace separates words. */
  lemma WordTrieClean(logs: seq<Log>)
    ensures WordsWithoutSpaces(WordTrieOf(logs)) <==> forall k | 0 <= k < |logs| :: NoOddSpaceIn(logs[k].content)
  {
    hide WordTrieOf, Tokens, Fold, NoOddSpaceIn, NoSpaceIn;
    if forall k | 0 <= k < |logs| :: NoOddSpaceIn(logs[k].content) {
      forall x | SearchNode(WordTrieOf(logs), x).Some? ensures NoSpaceIn(x) {
        WordIndexIsScan(logs, x);
        NothingNoSpace();
        if x != [] {
          var k :| 0 <= k < |logs| && SomeWordStarts(Tokens(logs[k].content), x);
          var i :| 0 <= i < |Tokens(logs[k].content)| && x <= Fold(true, Tokens(logs[k].content)[i]);
          TokensNoSpace(logs[k].content, i);
          FoldNoSpace(Tokens(logs[k].content)[i]);
          PrefixNoSpace(x, Fold(true, Tokens(logs[k].content)[i]));
        }
      }
    } else {
      var k :| 0 <= k < |logs| && !NoOddSpaceIn(logs[k].content);
      var i := OddSpaceInWord(logs[k].content);
      var x := Fold(true, Tokens(logs[k].content)[i]);
      assert SomeWordStarts(Tokens(logs[k].content), x);
      WordIndexIsScan(logs, x);
      assert SearchNode(WordTrieOf(logs), x).Some?;
    }
  }

  /** A character that separates nothing is in some word. */
  lemma {:induction false} CharInWord(s: string, p: nat) returns (i: nat)
    requires p < |s| && !IsDelimiter(s[p])
    ensures i < |Tokens(s)| && s[p] in Tokens(s)[i]
    decreases |s|
  {
    hide IsDelimiter;
    if IsDelimiter(s[0]) {
      i := CharInWord(s[1..], p - 1);
    } else {
      var n := WordRun(s);
      if p < n {
        i := 0;
        assert s[..n][p] == s[p];
      } else {
        i := CharInWord(s[n..], p - n);
        i := i + 1;
      }
    }
  }

  lemma OddSpaceInWord(s: string) returns (i: nat)
    requires !NoOddSpaceIn(s)
    ensures i < |Tokens(s)| && !NoSpaceIn(Fold(true, Tokens(s)[i]))
  {
    hide Tokens, WordRun;
    var p :| 0 <= p < |s| && (s[p] == '\r' || s[p] == '\U{0B}' || s[p] == '\U{0C}');
    assert !IsDelimiter(s[p]);
    i := CharInWord(s, p);
    var w := Tokens(s)[i];
    var j :| 0 <= j < |w| && w[j] == s[p];
    FoldAt(w, j);
    assert IsSpace(Fold(true, w)[j]);
  }

  lemma {:induction false} FoldAt(w: string, j: nat)
    requires j < |w|
    ensures Fold(true, w)[j] == FoldChar(true, w[j])
  {
    if j > 0 { FoldAt(w[1..], j - 1); }
  }

  /** The tries of a bulk of logs with keys: properly rooted, no value at the root. */
  lemma {:induction false} KeyTrieRoot(logs: seq<Log>)
    requires forall k | 0 <= k < |logs| :: logs[k].key != []
    ensures var n := KeyTrieOf(logs); n.c == ROOT && n.values == [] && Keyed(n)
  {
    if logs != [] {
      var n := |logs| - 1;
      KeyTrieRoot(logs[..n]);
      InsertKeyed(false, KeyTrieOf(logs[..n]), logs[n].key, n);
    }
  }

  lemma {:induction false} InsertWordsRoot(n: Node<int>, words: seq<string>, serial: int)
    requires n.c == ROOT && n.values == [] && Keyed(n) && forall k | 0 <= k < |words| :: words[k] != []
    ensures var n' := InsertWords(n, words, serial); n'.c == ROOT && n'.values == [] && Keyed(n')
  {
    if words != [] {
      var m := |words| - 1;
      InsertWordsRoot(n, words[..m], serial);
      InsertKeyed(true, InsertWords(n, words[..m], serial), words[m], serial);
    }
  }

  lemma {:induction false} WordTrieRoot(logs: seq<Log>)
    ensures var n := WordTrieOf(logs); n.c == ROOT && n.values == [] && Keyed(n)
  {
    if logs != [] {
      var n := |logs| - 1;
      WordTrieRoot(logs[..n]);
      InsertWordsRoot(WordTrieOf(logs[..n]), Tokens(logs[n].content), n);
    }
  }
}
