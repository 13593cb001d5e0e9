/** print_roll_vector: the text that shows one set of rolls, the kept ones
    bare and the discarded ones in parentheses. */
module RollDisplay {
  import opened Numbers

  /** One roll as shown: in parentheses when it was discarded. */
  function Element(v: int, discarded: bool): string {
    if discarded then "(" + IntText(v) + ")" else IntText(v)
  }

  /** The strings of `pieces` one after the other. */
  function Concat(pieces: seq<string>): string {
    if pieces == [] then "" else pieces[0] + Concat(pieces[1..])
  }

  lemma {:induction false} ConcatAppend(a: seq<string>, b: seq<string>)
    ensures Concat(a + b) == Concat(a) + Concat(b)
    decreases |a|
  {
    if a == [] {
      assert a + b == b;
    } else {
      assert (a + b)[0] == a[0] && (a + b)[1..] == a[1..] + b;
      ConcatAppend(a[1..], b);
    }
  }

  /** The pieces up to and including index `i`. */
  lemma ConcatPrefix(pieces: seq<string>, i: nat)
    requires i < |pieces|
    ensures Concat(pieces[..i + 1]) == Concat(pieces[..i]) + pieces[i]
  {
    assert pieces[..i + 1] == pieces[..i] + [pieces[i]];
    ConcatAppend(pieces[..i], [pieces[i]]);
    assert Concat([pieces[i]]) == pieces[i] + Concat([]);
  }

  /** What print_roll_vector(rolls, n) writes for each roll: the roll at
      index `i`, in parentheses when `i >= n`, followed by a space. */
  function Pieces(rolls: seq<int>, n: nat): (p: seq<string>)
    ensures |p| == |rolls|
  {
    seq(|rolls|, i requires 0 <= i < |rolls| => Element(rolls[i], i >= n) + " ")
  }

  /** The whole text of print_roll_vector(rolls, n): the rolls between an
      opening bracket with a space and a closing bracket, every roll taking
      at least two characters (its digits and the space after it). */
  function RollVectorText(rolls: seq<int>, n: nat): (r: string)
    ensures 3 + 2 * |rolls| <= |r|
    ensures r[..2] == "[ " && r[|r| - 1] == ']'
  {
    ConcatLength(Pieces(rolls, n));
    "[ " + Concat(Pieces(rolls, n)) + "]"
  }

  /** Pieces of at least two characters each make a text of at least twice as many. */
  lemma {:induction false} ConcatLength(pieces: seq<string>)
    requires forall i :: 0 <= i < |pieces| ==> |pieces[i]| >= 2
    ensures |Concat(pieces)| >= 2 * |pieces|
    decreases |pieces|
  {
    if pieces != [] {
      ConcatLength(pieces[1..]);
    }
  }

  /** print_roll_vector itself, writing to a string instead of std::cout. */
  method PrintRollVector(rolls: seq<int>, n: nat) returns (text: string)
    ensures text == RollVectorText(rolls, n)
  {
    var k := n;
    text := "[ ";
    for i := 0 to |rolls|
      invariant text == "[ " + Concat(Pieces(rolls, n)[..i])
    {
      ghost var before := text;
      if i >= k {
        text := text + "(" + IntText(rolls[i]) + ")";
      } else {
        text := text + IntText(rolls[i]);
      }
      text := text + " ";
      ShowNext(rolls, n, i, before, text);
    }
    assert Pieces(rolls, n)[..|rolls|] == Pieces(rolls, n);
    text := text + "]";
  }

  /** One pass of the loop of print_roll_vector extends the text by the next piece. */
  lemma ShowNext(rolls: seq<int>, n: nat, i: nat, before: string, after: string)
    requires i < |rolls|
    requires before == "[ " + Concat(Pieces(rolls, n)[..i])
    requires after == (if i >= n then before + "(" + IntText(rolls[i]) + ")" else before + IntText(rolls[i])) + " "
    ensures after == "[ " + Concat(Pieces(rolls, n)[..i + 1])
  {
    var shown, piece := IntText(rolls[i]), Pieces(rolls, n)[i];
    if i >= n {
      Associative(before + "(" + shown, ")", " ");
      Associative(before + "(", shown, ")" + " ");
      Associative(before, "(", shown + (")" + " "));
      assert after == before + ("(" + (shown + (")" + " ")));
      Associative("(", shown, ")");
      Associative("(" + shown, ")", " ");
      Associative("(", shown, ")" + " ");
      assert piece == "(" + (shown + (")" + " "));
    } else {
      Associative(before, shown, " ");
    }
    assert after == before + piece;
    ConcatPrefix(Pieces(rolls, n), i);
    Associative("[ ", Concat(Pieces(rolls, n)[..i]), piece);
  }

  /** The rolls each followed by a space, all bare or all in parentheses. */
  function Listed(rolls: seq<int>, discarded: bool): seq<string> {
    seq(|rolls|, i requires 0 <= i < |rolls| => Element(rolls[i], discarded) + " ")
  }

  /** The layout of print_roll_vector(rolls, n): the first `n` rolls bare,
      then every remaining roll in parentheses, in their order. */
  lemma KeptThenDiscarded(rolls: seq<int>, n: nat)
    ensures var m := if n < |rolls| then n else |rolls|;
            RollVectorText(rolls, n) ==
              "[ " + Concat(Listed(rolls[..m], false)) + Concat(Listed(rolls[m..], true)) + "]"
  {
    var m := if n < |rolls| then n else |rolls|;
    var kept, dropped := Listed(rolls[..m], false), Listed(rolls[m..], true);
    forall i | 0 <= i < |rolls|
      ensures Pieces(rolls, n)[i] == (kept + dropped)[i]
    {
      if i < m {
        assert rolls[..m][i] == rolls[i] && (kept + dropped)[i] == kept[i];
      } else {
        assert rolls[m..][i - m] == rolls[i] && (kept + dropped)[i] == dropped[i - m];
      }
    }
    assert Pieces(rolls, n) == kept + dropped;
    ConcatAppend(Listed(rolls[..m], false), Listed(rolls[m..], true));
  }

  /** The parentheses in the text of one roll: one of each when it was discarded, none otherwise. */
  lemma ElementParentheses(v: int, discarded: bool)
    ensures var count := if discarded then 1 else 0;
            multiset(Element(v, discarded) + " ")['('] == count &&
            multiset(Element(v, discarded) + " ")[')'] == count
  {
    var number := IntText(v);
    assert '(' !in number && ')' !in number;
  }

  /** Counting a character in pieces that hold it once each, or not at all. */
  lemma {:induction false} ConcatCount(pieces: seq<string>, c: char, once: bool)
    requires forall i :: 0 <= i < |pieces| ==> multiset(pieces[i])[c] == if once then 1 else 0
    ensures multiset(Concat(pieces))[c] == if once then |pieces| else 0
    decreases |pieces|
  {
    if pieces != [] {
      ConcatCount(pieces[1..], c, once);
    }
  }

  /** Only a discarded roll is shown with parentheses: each kind of
      parenthesis occurs in the text as often as there are discarded rolls. */
  lemma ListedParentheses(rolls: seq<int>, discarded: bool)
    ensures var count := if discarded then |rolls| else 0;
            multiset(Concat(Listed(rolls, discarded)))['('] == count &&
            multiset(Concat(Listed(rolls, discarded)))[')'] == count
  {
    forall i | 0 <= i < |rolls|
      ensures var count := if discarded then 1 else 0;
              multiset(Listed(rolls, discarded)[i])['('] == count &&
              multiset(Listed(rolls, discarded)[i])[')'] == count
    {
      ElementParentheses(rolls[i], discarded);
    }
    ConcatCount(Listed(rolls, discarded), '(', discarded);
    ConcatCount(Listed(rolls, discarded), ')', discarded);
  }

  /** Exactly the discarded rolls are parenthesised: the text holds one '('
      and one ')' for each roll at an index `n` or above, and no others. */
  lemma DiscardedCount(rolls: seq<int>, n: nat)
    ensures var discarded := if n < |rolls| then |rolls| - n else 0;
            multiset(RollVectorText(rolls, n))['('] == discarded &&
            multiset(RollVectorText(rolls, n))[')'] == discarded
  {
    var m := if n < |rolls| then n else |rolls|;
    var kept, dropped := Concat(Listed(rolls[..m], false)), Concat(Listed(rolls[m..], true));
    KeptThenDiscarded(rolls, n);
    ListedParentheses(rolls[..m], false);
    ListedParentheses(rolls[m..], true);
    FramedCount(kept, dropped, '(');
    FramedCount(kept, dropped, ')');
  }

  /** The brackets and the space around the rolls are not parentheses. */
  lemma FramedCount(a: string, b: string, c: char)
    requires c == '(' || c == ')'
    ensures multiset("[ " + a + b + "]")[c] == multiset(a)[c] + multiset(b)[c]
  {
  }
}
