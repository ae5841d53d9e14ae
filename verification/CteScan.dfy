/**
  The nesting-aware scan that decides whether the main statement of a common table
  expression writes (crates/keycompute-db/src/db_router.rs, cte_main_stmt_is_write).
 */
module CteScan {

  predicate StartsWithWrite(s: string) {
    "INSERT " <= s || "UPDATE " <= s || "DELETE " <= s || "REPLACE " <= s
  }

  /** Nesting depth after one more character; a stray closing parenthesis is ignored. */
  function After(depth: nat, c: char): nat {
    if c == '(' then depth + 1 else if c == ')' && depth > 0 then depth - 1 else depth
  }

  function Depth(depth: nat, s: string): nat
    decreases |s|
  {
    if s == [] then depth else Depth(After(depth, s[0]), s[1..])
  }

  /** A write keyword and its space start at position i, outside every parenthesis. */
  predicate TopLevelWriteAt(s: string, i: nat)
    requires i < |s|
  {
    Depth(0, s[..i]) == 0 && StartsWithWrite(s[i..])
  }

  predicate TopLevelWrite(s: string) {
    exists i :: 0 <= i < |s| && TopLevelWriteAt(s, i)
  }

  /** The text after WITH and the optional RECURSIVE. */
  function Body(sql: string): string
    requires "WITH " <= sql
  {
    var rest := sql[5..];
    if "RECURSIVE " <= rest then rest[10..] else rest
  }

  lemma {:induction false} DepthSnoc(d: nat, s: string, c: char)
    ensures Depth(d, s + [c]) == After(Depth(d, s), c)
    decreases |s|
  {
    if s == [] {
      assert s + [c] == [c];
      assert Depth(d, [c]) == Depth(After(d, c), [c][1..]);
    } else {
      assert (s + [c])[1..] == s[1..] + [c];
      DepthSnoc(After(d, s[0]), s[1..], c);
    }
  }

  /** A keyword is recognised by its first letter. */
  lemma WriteByLetter(s: string)
    requires s != []
    ensures StartsWithWrite(s) <==>
            || (s[0] == 'I' && "INSERT " <= s) || (s[0] == 'U' && "UPDATE " <= s)
            || (s[0] == 'D' && "DELETE " <= s) || (s[0] == 'R' && "REPLACE " <= s)
  {
  }

  /** One character of the scan: where it stands afterwards, and whether it found a write. */
  method ScanCharacter(rest: string, i: nat, depth: nat) returns (found: bool, next: nat)
    requires i < |rest| && depth == Depth(0, rest[..i])
    ensures found <==> TopLevelWriteAt(rest, i)
    ensures !found ==> next == Depth(0, rest[..i + 1])
  {
    var remaining := rest[i..];
    WriteByLetter(remaining);
    assert rest[..i + 1] == rest[..i] + [rest[i]];
    DepthSnoc(0, rest[..i], rest[i]);
    found, next := false, depth;
    if rest[i] == '(' {
      next := depth + 1;
    } else if rest[i] == ')' && depth > 0 {
      next := depth - 1;
    } else if rest[i] == 'I' && depth == 0 && "INSERT " <= remaining {
      found := true;
    } else if rest[i] == 'U' && depth == 0 && "UPDATE " <= remaining {
      found := true;
    } else if rest[i] == 'D' && depth == 0 && "DELETE " <= remaining {
      found := true;
    } else if rest[i] == 'R' && depth == 0 && "REPLACE " <= remaining {
      found := true;
    }
  }

  /** The scan finds exactly the statements with a write keyword at depth zero. */
  method CteMainStmtIsWrite(sql: string) returns (write: bool)
    requires "WITH " <= sql
    ensures write <==> TopLevelWrite(Body(sql))
  {
    var rest := sql[5..];
    if "RECURSIVE " <= rest {
      rest := rest[10..];
    }
    var depth: nat := 0;
    var i := 0;
    while i < |rest|
      invariant 0 <= i <= |rest|
      invariant depth == Depth(0, rest[..i])
      invariant forall j :: 0 <= j < i ==> !TopLevelWriteAt(rest, j)
    {
      var found;
      found, depth := ScanCharacter(rest, i, depth);
      if found {
        return true;
      }
      i := i + 1;
    }
    return false;
  }

  // ---- Parenthesised groups never matter ------------------------------------

  /** Every parenthesis opened at or above the given depth is closed, and no other. */
  predicate BalancedFrom(open: nat, s: string)
    decreases |s|
  {
    if s == [] then open == 0
    else if s[0] == '(' then BalancedFrom(open + 1, s[1..])
    else if s[0] == ')' then open > 0 && BalancedFrom(open - 1, s[1..])
    else BalancedFrom(open, s[1..])
  }

  predicate Balanced(s: string) {
    BalancedFrom(0, s)
  }

  /** The same search written as a recursion on the remaining text. */
  predicate Scan(depth: nat, s: string)
    decreases |s|
  {
    s != [] && ((depth == 0 && StartsWithWrite(s)) || Scan(After(depth, s[0]), s[1..]))
  }

  ghost predicate WriteFrom(depth: nat, s: string, i: nat)
    requires i < |s|
  {
    Depth(depth, s[..i]) == 0 && StartsWithWrite(s[i..])
  }

  lemma {:induction false} ScanFindsWrites(depth: nat, s: string)
    ensures Scan(depth, s) <==> exists i :: 0 <= i < |s| && WriteFrom(depth, s, i)
    decreases |s|
  {
    if s != [] {
      var d := After(depth, s[0]);
      ScanFindsWrites(d, s[1..]);
      assert WriteFrom(depth, s, 0) <==> depth == 0 && StartsWithWrite(s) by {
        assert s[0..] == s && s[..0] == [];
      }
      forall i | 0 <= i < |s| - 1
        ensures WriteFrom(d, s[1..], i) <==> WriteFrom(depth, s, i + 1)
      {
        assert s[1..][i..] == s[i + 1..];
        assert s[..i + 1] == [s[0]] + s[1..][..i];
        assert Depth(depth, s[..i + 1]) == Depth(d, s[..i + 1][1..]);
      }
      if i :| 0 <= i < |s| && WriteFrom(depth, s, i) {
        assert i == 0 || WriteFrom(d, s[1..], i - 1);
      }
    }
  }

  lemma {:induction false} ScanSkipsGroup(depth: nat, open: nat, group: string, tail: string)
    requires BalancedFrom(open, group)
    ensures Scan(depth + 1 + open, group + ")" + tail) == Scan(depth, tail)
    decreases |group|
  {
    var s := group + ")" + tail;
    if group == [] {
      assert s[0] == ')' && s[1..] == tail;
    } else {
      assert s[0] == group[0] && s[1..] == group[1..] + ")" + tail;
      var open' := if group[0] == '(' then open + 1 else if group[0] == ')' then open - 1 else open;
      ScanSkipsGroup(depth, open', group[1..], tail);
    }
  }

  /** A keyword holds no parenthesis, so a match cannot run into one. */
  lemma KeywordEndsBeforeGroup(head: string, x: string, y: string)
    requires x != [] && y != [] && x[0] == y[0] == '('
    ensures StartsWithWrite(head + x) == StartsWithWrite(head + y)
  {
    KeywordWithin("INSERT ", head, x, y);
    KeywordWithin("UPDATE ", head, x, y);
    KeywordWithin("DELETE ", head, x, y);
    KeywordWithin("REPLACE ", head, x, y);
  }

  lemma KeywordWithin(keyword: string, head: string, x: string, y: string)
    requires x != [] && y != [] && x[0] == y[0] == '(' && '(' !in keyword
    ensures keyword <= head + x <==> keyword <= head + y
  {
    if |keyword| > |head| {
      assert (head + x)[|head|] == '(' && (head + y)[|head|] == '(';
      assert keyword[|head|] in keyword;
    }
  }

  lemma {:induction false} ScanSameAfterHead(depth: nat, head: string, x: string, y: string)
    requires x != [] && y != [] && x[0] == y[0] == '('
    requires forall d: nat :: Scan(d, x) == Scan(d, y)
    ensures Scan(depth, head + x) == Scan(depth, head + y)
    decreases |head|
  {
    if head == [] {
      assert head + x == x && head + y == y;
    } else {
      KeywordEndsBeforeGroup(head, x, y);
      assert (head + x)[1..] == head[1..] + x && (head + y)[1..] == head[1..] + y;
      ScanSameAfterHead(After(depth, head[0]), head[1..], x, y);
    }
  }

  /**
    Replacing the contents of any matched parenthesised group by any other balanced
    text never changes the answer.
   */
  lemma GroupContentsNeverMatter(head: string, group: string, other: string, tail: string)
    requires Balanced(group) && Balanced(other)
    ensures TopLevelWrite(head + "(" + group + ")" + tail) <==> TopLevelWrite(head + "(" + other + ")" + tail)
  {
    var x, y := "(" + group + ")" + tail, "(" + other + ")" + tail;
    forall d: nat
      ensures Scan(d, x) == Scan(d, y)
    {
      ScanOverGroup(d, group, tail);
      ScanOverGroup(d, other, tail);
    }
    ScanSameAfterHead(0, head, x, y);
    ScanIsTopLevelWrite(head + x);
    ScanIsTopLevelWrite(head + y);
    Regroup(head, group, tail);
    Regroup(head, other, tail);
  }

  lemma Regroup(head: string, group: string, tail: string)
    ensures head + "(" + group + ")" + tail == head + ("(" + group + ")" + tail)
  {
  }

  lemma ScanOverGroup(depth: nat, group: string, tail: string)
    requires Balanced(group)
    ensures Scan(depth, "(" + group + ")" + tail) == Scan(depth, tail)
  {
    var s := "(" + group + ")" + tail;
    assert s[0] == '(' && s[1..] == group + ")" + tail;
    ScanSkipsGroup(depth, 0, group, tail);
  }

  lemma ScanIsTopLevelWrite(s: string)
    ensures Scan(0, s) <==> TopLevelWrite(s)
  {
    ScanFindsWrites(0, s);
    if i :| 0 <= i < |s| && WriteFrom(0, s, i) {
      assert TopLevelWriteAt(s, i);
    }
    if i :| 0 <= i < |s| && TopLevelWriteAt(s, i) {
      assert WriteFrom(0, s, i);
    }
  }

  // ---- The scan, word by word -------------------------------------------------------

  predicate WordCharacter(c: char) {
    'A' <= c <= 'Z' || 'a' <= c <= 'z' || '0' <= c <= '9' || c == '_'
  }

  /** A maximal run of word characters, with its nesting depth and the character after it. */
  datatype Word = Word(text: string, depth: nat, next: string)

  function RunLength(s: string): (n: nat)
    ensures n <= |s| && (forall i :: 0 <= i < n ==> WordCharacter(s[i])) && (n < |s| ==> !WordCharacter(s[n]))
  {
    if s == [] || !WordCharacter(s[0]) then 0 else 1 + RunLength(s[1..])
  }

  /** The words of a text, from left to right. */
  function Words(depth: nat, s: string): seq<Word>
    decreases |s|
  {
    var n := RunLength(s);
    if s == [] then []
    else if n == 0 then Words(After(depth, s[0]), s[1..])
    else [Word(s[..n], depth, if n < |s| then [s[n]] else [])] + Words(depth, s[n..])
  }

  predicate IsKeyword(w: string) {
    w == "INSERT" || w == "UPDATE" || w == "DELETE" || w == "REPLACE"
  }

  predicate EndsInKeyword(w: string) {
    exists i :: 0 <= i < |w| && IsKeyword(w[i..])
  }

  /** A word at depth zero, followed by a space. */
  predicate Spaced(w: Word) {
    w.depth == 0 && w.next == " "
  }

  /** Some top-level word before a space ends in a write keyword. */
  predicate SuffixWrite(depth: nat, s: string) {
    exists k :: 0 <= k < |Words(depth, s)| && Spaced(Words(depth, s)[k]) && EndsInKeyword(Words(depth, s)[k].text)
  }

  /** Some top-level word before a space is a write keyword. */
  predicate WordWrite(depth: nat, s: string) {
    exists k :: 0 <= k < |Words(depth, s)| && Spaced(Words(depth, s)[k]) && IsKeyword(Words(depth, s)[k].text)
  }

  /** The scan that asks, besides, for the keyword to begin a word. */
  predicate WordScan(depth: nat, inWord: bool, s: string)
    decreases |s|
  {
    s != [] && ((depth == 0 && !inWord && StartsWithWrite(s)) || WordScan(After(depth, s[0]), WordCharacter(s[0]), s[1..]))
  }

  /** What is left of a word, up to position n, is this text and a space follows. */
  predicate WordIs(s: string, n: nat, text: string) {
    n < |s| && s[n] == ' ' && s[..n] == text
  }

  predicate AllWord(s: string) {
    forall i :: 0 <= i < |s| ==> WordCharacter(s[i])
  }

  lemma StartsWithOne(s: string, keyword: string, spaced: string, n: nat)
    requires n == RunLength(s) && AllWord(keyword) && spaced == keyword + " "
    ensures spaced <= s <==> WordIs(s, n, keyword)
  {
    var k := |keyword|;
    if spaced <= s {
      assert forall i :: 0 <= i < k ==> s[i] == spaced[i] == keyword[i];
      assert s[k] == spaced[k] == ' ';
      assert n == k;
    }
    if WordIs(s, n, keyword) {
      assert s[..n + 1] == spaced;
    }
  }

  lemma StartsWithInsert(s: string, n: nat)
    requires n == RunLength(s)
    ensures "INSERT " <= s <==> WordIs(s, n, "INSERT")
  {
    assert AllWord("INSERT") && "INSERT " == "INSERT" + " ";
    StartsWithOne(s, "INSERT", "INSERT ", n);
  }

  lemma StartsWithUpdate(s: string, n: nat)
    requires n == RunLength(s)
    ensures "UPDATE " <= s <==> WordIs(s, n, "UPDATE")
  {
    assert AllWord("UPDATE") && "UPDATE " == "UPDATE" + " ";
    StartsWithOne(s, "UPDATE", "UPDATE ", n);
  }

  lemma StartsWithDelete(s: string, n: nat)
    requires n == RunLength(s)
    ensures "DELETE " <= s <==> WordIs(s, n, "DELETE")
  {
    assert AllWord("DELETE") && "DELETE " == "DELETE" + " ";
    StartsWithOne(s, "DELETE", "DELETE ", n);
  }

  lemma StartsWithReplace(s: string, n: nat)
    requires n == RunLength(s)
    ensures "REPLACE " <= s <==> WordIs(s, n, "REPLACE")
  {
    assert AllWord("REPLACE") && "REPLACE " == "REPLACE" + " ";
    StartsWithOne(s, "REPLACE", "REPLACE ", n);
  }

  /** At the beginning of what is left of a word, a match means that this is a keyword and a space follows. */
  lemma StartsWithKeyword(s: string, n: nat)
    requires n == RunLength(s)
    ensures StartsWithWrite(s) <==> IsKeyword(s[..n]) && n < |s| && s[n] == ' '
  {
    StartsWithInsert(s, n);
    StartsWithUpdate(s, n);
    StartsWithDelete(s, n);
    StartsWithReplace(s, n);
  }

  lemma ScanOfLetter(depth: nat, s: string, n: nat)
    requires s != [] && WordCharacter(s[0]) && n == RunLength(s)
    ensures Scan(depth, s) <==> (depth == 0 && n < |s| && s[n] == ' ' && IsKeyword(s[..n])) || Scan(depth, s[1..])
  {
    StartsWithKeyword(s, n);
    assert After(depth, s[0]) == depth;
  }

  /** Within a word the scan looks at its suffixes; past it, it goes on at the same depth. */
  lemma {:induction false} ScanOfWord(depth: nat, s: string, n: nat)
    requires s != [] && WordCharacter(s[0]) && n == RunLength(s)
    ensures Scan(depth, s) <==> (depth == 0 && n < |s| && s[n] == ' ' && EndsInKeyword(s[..n])) || Scan(depth, s[n..])
    decreases |s|
  {
    ScanOfLetter(depth, s, n);
    SuffixOfRest(s[..n]);
    assert s[..n][1..] == s[1..n];
    if n > 1 {
      ScanOfWord(depth, s[1..], n - 1);
      assert s[1..][n - 1..] == s[n..] && s[1..][..n - 1] == s[1..n];
    }
  }

  lemma SuffixOfRest(w: string)
    requires w != []
    ensures EndsInKeyword(w) <==> IsKeyword(w) || EndsInKeyword(w[1..])
  {
    assert w[0..] == w;
    if i :| 0 <= i < |w[1..]| && IsKeyword(w[1..][i..]) {
      assert w[i + 1..] == w[1..][i..];
    }
    if i :| 0 <= i < |w| && IsKeyword(w[i..]) {
      if i > 0 {
        assert w[1..][i - 1..] == w[i..];
      }
    }
  }

  /** A further word in front, or a further character that is none. */
  lemma WordsInFront(depth: nat, s: string)
    requires s != []
    ensures var n := RunLength(s);
            && (n == 0 ==> (SuffixWrite(depth, s) <==> SuffixWrite(After(depth, s[0]), s[1..]))
                           && (WordWrite(depth, s) <==> WordWrite(After(depth, s[0]), s[1..])))
            && (n > 0 ==>
                  var spaced := depth == 0 && n < |s| && s[n] == ' ';
                  && (SuffixWrite(depth, s) <==> (spaced && EndsInKeyword(s[..n])) || SuffixWrite(depth, s[n..]))
                  && (WordWrite(depth, s) <==> (spaced && IsKeyword(s[..n])) || WordWrite(depth, s[n..])))
  {
    var n := RunLength(s);
    if n == 0 {
      assert Words(depth, s) == Words(After(depth, s[0]), s[1..]);
    } else {
      var w := Word(s[..n], depth, if n < |s| then [s[n]] else []);
      OneMoreWord(w, Words(depth, s[n..]), Words(depth, s));
      assert Spaced(w) <==> depth == 0 && n < |s| && s[n] == ' ';
    }
  }

  lemma OneMoreWord(w: Word, rest: seq<Word>, all: seq<Word>)
    requires all == [w] + rest
    ensures (exists k :: 0 <= k < |all| && Spaced(all[k]) && EndsInKeyword(all[k].text)) <==>
            (Spaced(w) && EndsInKeyword(w.text)) || (exists k :: 0 <= k < |rest| && Spaced(rest[k]) && EndsInKeyword(rest[k].text))
    ensures (exists k :: 0 <= k < |all| && Spaced(all[k]) && IsKeyword(all[k].text)) <==>
            (Spaced(w) && IsKeyword(w.text)) || (exists k :: 0 <= k < |rest| && Spaced(rest[k]) && IsKeyword(rest[k].text))
  {
    assert all[0] == w;
    assert forall k :: 0 <= k < |rest| ==> rest[k] == all[k + 1];
    assert forall k :: 0 < k < |all| ==> all[k] == rest[k - 1];
  }

  /**
    The scan answers true exactly when some word at depth zero that a space follows has a
    write keyword as a suffix.
   */
  lemma {:induction false} ScanAnswersBySuffix(depth: nat, s: string)
    ensures Scan(depth, s) <==> SuffixWrite(depth, s)
    decreases |s|
  {
    if s != [] {
      WordsInFront(depth, s);
      var n := RunLength(s);
      if n == 0 {
        StartsWithKeyword(s, RunLength(s));
        NoEmptyKeyword(s[..0]);
        ScanAnswersBySuffix(After(depth, s[0]), s[1..]);
      } else {
        ScanOfWord(depth, s, n);
        ScanAnswersBySuffix(depth, s[n..]);
      }
    }
  }

  /** So of the whole statement; in particular no word that is a keyword is missed. */
  lemma AnswerIsBySuffix(s: string)
    ensures TopLevelWrite(s) <==> SuffixWrite(0, s)
    ensures WordWrite(0, s) ==> TopLevelWrite(s)
  {
    ScanIsTopLevelWrite(s);
    ScanAnswersBySuffix(0, s);
    if k :| 0 <= k < |Words(0, s)| && Spaced(Words(0, s)[k]) && IsKeyword(Words(0, s)[k].text) {
      var w := Words(0, s)[k].text;
      assert w[0..] == w;
      assert EndsInKeyword(w);
    }
  }

  lemma NoEmptyKeyword(w: string)
    requires |w| < 6
    ensures !IsKeyword(w)
  {
  }

  /** Past its first character, a word holds no beginning of another. */
  lemma {:induction false} WordScanWithinWord(depth: nat, s: string)
    ensures WordScan(depth, true, s) <==> WordScan(depth, true, s[RunLength(s)..])
    decreases |s|
  {
    if RunLength(s) > 0 {
      assert After(depth, s[0]) == depth;
      WordScanWithinWord(depth, s[1..]);
      assert s[1..][RunLength(s) - 1..] == s[RunLength(s)..];
    } else {
      assert s[0..] == s;
    }
  }

  lemma WordScanAfterWord(depth: nat, inWord: bool, s: string)
    requires s == [] || !WordCharacter(s[0])
    ensures WordScan(depth, inWord, s) <==> WordScan(depth, false, s)
  {
    if s != [] {
      StartsWithKeyword(s, RunLength(s));
      NoEmptyKeyword(s[..0]);
    }
  }

  lemma {:induction false} WordScanFindsWords(depth: nat, s: string)
    ensures WordScan(depth, false, s) <==> WordWrite(depth, s)
    decreases |s|
  {
    if s != [] {
      WordsInFront(depth, s);
      StartsWithKeyword(s, RunLength(s));
      var n := RunLength(s);
      if n == 0 {
        NoEmptyKeyword(s[..0]);
        WordScanFindsWords(After(depth, s[0]), s[1..]);
      } else {
        assert After(depth, s[0]) == depth;
        WordScanWithinWord(depth, s[1..]);
        assert s[1..][n - 1..] == s[n..];
        WordScanAfterWord(depth, true, s[n..]);
        WordScanFindsWords(depth, s[n..]);
      }
    }
  }

  // ---- Where the answer is not the statement's kind -------------------------------

  /** Where each letter that a keyword begins with stands inside a word, no word is a keyword. */
  lemma {:induction false} NoKeywordWord(depth: nat, inWord: bool, s: string)
    requires LettersInside(inWord, s)
    ensures !WordScan(depth, inWord, s)
    decreases |s|
  {
    if s != [] {
      WriteByLetter(s);
      assert InsideAt(inWord, s, 0);
      forall i | 0 <= i < |s[1..]|
        ensures InsideAt(WordCharacter(s[0]), s[1..], i)
      {
        assert InsideAt(inWord, s, i + 1);
      }
      NoKeywordWord(After(depth, s[0]), WordCharacter(s[0]), s[1..]);
    }
  }

  /** Where no letter that a keyword begins with is followed by its second letter, nothing is found. */
  lemma {:induction false} NoKeywordAtAll(depth: nat, s: string)
    requires forall i :: 0 <= i < |s| - 1 ==> !(s[i] == 'I' && s[i + 1] == 'N') && !(s[i] == 'U' && s[i + 1] == 'P')
                                              && !(s[i] in {'D', 'R'} && s[i + 1] == 'E')
    ensures !Scan(depth, s)
    decreases |s|
  {
    if s != [] {
      WriteByLetter(s);
      assert StartsWithWrite(s) ==> |s| > 1;
      NoKeywordAtAll(After(depth, s[0]), s[1..]);
    }
  }

  /** Text without those letters, up to a group, is passed over. */
  lemma {:induction false} ScanPassesText(text: string, rest: string)
    requires Plain(text)
    ensures Scan(0, text + rest) == Scan(0, rest)
    decreases |text|
  {
    if text == [] {
      assert text + rest == rest;
    } else {
      WriteByLetter(text + rest);
      assert (text + rest)[1..] == text[1..] + rest;
      ScanPassesText(text[1..], rest);
    }
  }

  /** Text in which no keyword can begin and no group opens or closes. */
  predicate Plain(text: string) {
    forall i :: 0 <= i < |text| ==> text[i] !in {'I', 'U', 'D', 'R', '(', ')'}
  }

  /** A write hidden in the body of a named subquery is never seen. */
  lemma NestedWriteIsInvisible(name: string, body: string, main: string)
    requires Balanced(body) && Plain(name)
    ensures TopLevelWrite(name + ("(" + body + ")" + main)) <==> TopLevelWrite(main)
  {
    ScanPassesText(name, "(" + body + ")" + main);
    ScanOverGroup(0, body, main);
    ScanIsTopLevelWrite(name + ("(" + body + ")" + main));
    ScanIsTopLevelWrite(main);
  }

  const NAME: string := "X AS "
  const UPDATING: string := "UPDATE T SET B = 1 RETURNING B"
  const MAIN: string := " SELECT * FROM X"

  lemma NameIsPlain()
    ensures Plain(NAME)
  {
  }

  lemma UpdatingIsBalanced()
    ensures Balanced(UPDATING)
  {
    NoParenthesisIsBalanced(UPDATING);
  }

  lemma MainIsRead()
    ensures !TopLevelWrite(MAIN)
  {
    NoKeywordAtAll(0, MAIN);
    ScanIsTopLevelWrite(MAIN);
  }

  /** A statement that updates and returns inside its subquery counts as a read. */
  lemma UpdateReturningCountsAsRead()
    ensures !TopLevelWrite(NAME + ("(" + UPDATING + ")" + MAIN))
  {
    NameIsPlain();
    UpdatingIsBalanced();
    NestedWriteIsInvisible(NAME, UPDATING, MAIN);
    MainIsRead();
  }

  /** After text that ends at depth zero, a keyword and its space count, whatever it is part of. */
  lemma KeywordAnywhereCounts(head: string, tail: string)
    requires Depth(0, head) == 0 && tail != [] && StartsWithWrite(tail)
    ensures TopLevelWrite(head + tail)
  {
    assert (head + tail)[..|head|] == head && (head + tail)[|head|..] == tail;
    assert TopLevelWriteAt(head + tail, |head|);
  }

  predicate Initial(c: char) {
    c == 'I' || c == 'U' || c == 'D' || c == 'R'
  }

  /** If a keyword can begin here, this is inside a word; `before` speaks for the first position. */
  predicate InsideAt(before: bool, s: string, i: nat)
    requires i < |s|
  {
    Initial(s[i]) ==> if i == 0 then before else WordCharacter(s[i - 1])
  }

  /** Every letter that a keyword begins with stands inside a word. */
  predicate LettersInside(before: bool, s: string) {
    forall i :: 0 <= i < |s| ==> InsideAt(before, s, i)
  }

  lemma LettersInsideBoth(head: string, tail: string)
    requires LettersInside(false, head) && head != [] && LettersInside(WordCharacter(head[|head| - 1]), tail)
    ensures LettersInside(false, head + tail)
  {
    var s := head + tail;
    forall i | 0 <= i < |s|
      ensures InsideAt(false, s, i)
    {
      if i < |head| {
        assert InsideAt(false, head, i);
      } else {
        assert InsideAt(WordCharacter(head[|head| - 1]), tail, i - |head|);
      }
    }
  }

  const COLUMN: string := "X AS (SELECT 1) SELECT LAST_"
  const REST: string := "UPDATE FROM X"

  lemma ColumnLetters()
    ensures COLUMN != [] && WordCharacter(COLUMN[|COLUMN| - 1]) && LettersInside(false, COLUMN)
  {
    assert forall i :: 0 <= i < |COLUMN| ==> !Initial(COLUMN[i]);
  }

  lemma RestStarts()
    ensures REST != [] && StartsWithWrite(REST)
  {
    assert "UPDATE " <= REST;
  }

  lemma RestLetters()
    ensures LettersInside(true, REST)
  {
  }

  lemma ColumnEndsAtTopLevel()
    ensures Depth(0, COLUMN) == 0
  {
    DepthOverGroup(COLUMN, 5, 14);
  }

  /** A column named LAST_UPDATE sends a read without any write word to the writer. */
  lemma ColumnNameLooksLikeWrite()
    ensures TopLevelWrite(COLUMN + REST) && !WordWrite(0, COLUMN + REST)
  {
    ColumnEndsAtTopLevel();
    RestStarts();
    KeywordAnywhereCounts(COLUMN, REST);
    ColumnLetters();
    RestLetters();
    NoKeywordWordInBoth(COLUMN, REST);
  }

  lemma NoKeywordWordInBoth(head: string, tail: string)
    requires LettersInside(false, head) && head != [] && LettersInside(WordCharacter(head[|head| - 1]), tail)
    ensures !WordWrite(0, head + tail)
  {
    LettersInsideBoth(head, tail);
    NoKeywordWord(0, false, head + tail);
    WordScanFindsWords(0, head + tail);
  }

  const QUOTING: string := "X AS (SELECT 1) SELECT '"
  const QUOTED: string := "DELETE ME'"

  lemma QuotedStarts()
    ensures QUOTED != [] && StartsWithWrite(QUOTED)
  {
    assert "DELETE " <= QUOTED;
  }

  lemma QuotingEndsAtTopLevel()
    ensures Depth(0, QUOTING) == 0
  {
    DepthOverGroup(QUOTING, 5, 14);
  }

  /** Quotes mean nothing to it: a keyword in a string literal counts. */
  lemma LiteralLooksLikeWrite()
    ensures TopLevelWrite(QUOTING + QUOTED)
  {
    QuotingEndsAtTopLevel();
    QuotedStarts();
    KeywordAnywhereCounts(QUOTING, QUOTED);
  }

  lemma {:induction false} DepthWithoutParenthesis(d: nat, s: string, n: nat)
    requires n <= |s| && forall i :: 0 <= i < n ==> s[i] != '(' && s[i] != ')'
    ensures Depth(d, s) == Depth(d, s[n..])
    decreases |s|
  {
    if n == 0 {
      assert s[0..] == s;
    } else {
      DepthWithoutParenthesis(d, s[1..], n - 1);
      assert s[1..][n - 1..] == s[n..];
    }
  }

  /** Text with one group, opened at `open` and closed at `close`, ends where it began. */
  lemma DepthOverGroup(s: string, open: nat, close: nat)
    requires open < close < |s| && s[open] == '(' && s[close] == ')'
    requires forall i :: 0 <= i < |s| && i != open && i != close ==> s[i] != '(' && s[i] != ')'
    ensures Depth(0, s) == 0
  {
    DepthWithoutParenthesis(0, s, open);
    var inner := s[open + 1..];
    assert s[open..][1..] == inner;
    DepthWithoutParenthesis(1, inner, close - open - 1);
    assert inner[close - open - 1..] == s[close..] && s[close..][1..] == s[close + 1..];
    DepthWithoutParenthesis(0, s[close + 1..], |s| - close - 1);
    assert s[close + 1..][|s| - close - 1..] == [];
  }

  lemma {:induction false} NoParenthesisIsBalanced(s: string)
    requires '(' !in s && ')' !in s
    ensures Balanced(s)
  {
    if s != [] {
      assert s[0] in s;
      forall c | c in s[1..]
        ensures c in s
      {}
      NoParenthesisIsBalanced(s[1..]);
    }
  }
}
