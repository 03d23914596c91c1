/**
 * Space-separated word lists, as the generator writes a route's `edges`
 * attribute (`"top left bottom right"`), and splitting such text on single spaces.
 */
module Words {

  /** `" ".join(ws)`. */
  function Join(ws: seq<string>): (r: string)
    ensures |ws| > 0 ==> ws[0] <= r
  {
    if |ws| == 0 then ""
    else if |ws| == 1 then ws[0]
    else ws[0] + " " + Join(ws[1..])
  }

  /** `Join` of a four-word list, unfolded. */
  lemma JoinFour(a: string, b: string, c: string, d: string)
    ensures Join([a, b, c, d]) == a + " " + b + " " + c + " " + d
  {
    assert [a, b, c, d][1..] == [b, c, d];
    assert [b, c, d][1..] == [c, d];
    assert [c, d][1..] == [d];
    assert Join([c, d]) == c + " " + d;
    assert Join([b, c, d]) == b + " " + (c + " " + d);
    assert Join([a, b, c, d]) == a + " " + (b + " " + (c + " " + d));
  }

  /** Splits on every single space; the result always has one more word than `s` has spaces. */
  function Split(s: string): (ws: seq<string>)
    ensures |ws| >= 1
  {
    if s == [] then [[]]
    else
      var rest := Split(s[1..]);
      if s[0] == ' ' then [[]] + rest
      else [[s[0]] + rest[0]] + rest[1..]
  }

  predicate HasNoSpace(w: string) {
    forall i :: 0 <= i < |w| ==> w[i] != ' '
  }

  /** A space-free prefix is absorbed into the first word. */
  lemma {:induction false} SplitSpaceFreePrefix(w: string, t: string)
    requires HasNoSpace(w)
    ensures Split(w + t) == [w + Split(t)[0]] + Split(t)[1..]
    decreases |w|
  {
    if w != [] {
      assert (w + t)[1..] == w[1..] + t;
      SplitSpaceFreePrefix(w[1..], t);
      assert [w[0]] + (w[1..] + Split(t)[0]) == w + Split(t)[0];
    } else {
      var ws := Split(t);
      assert w + t == t && w + ws[0] == ws[0];
      assert ws == [ws[0]] + ws[1..];
    }
  }

  /** Splitting a joined list of space-free words gives the words back. */
  lemma {:induction false} SplitJoin(ws: seq<string>)
    requires |ws| >= 1
    requires forall i :: 0 <= i < |ws| ==> HasNoSpace(ws[i])
    ensures Split(Join(ws)) == ws
    decreases |ws|
  {
    if |ws| == 1 {
      SplitSpaceFreePrefix(ws[0], []);
      assert ws[0] + [] == ws[0];
    } else {
      var tail := " " + Join(ws[1..]);
      assert Join(ws) == ws[0] + tail;
      SplitSpaceFreePrefix(ws[0], tail);
      SplitJoin(ws[1..]);
      assert tail[1..] == Join(ws[1..]);
      assert Split(tail) == [[]] + ws[1..];
      assert ws[0] + [] == ws[0];
      assert [ws[0]] + ws[1..] == ws;
    }
  }
}
