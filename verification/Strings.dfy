/** Go's strings.Split and strings.Join with a one-character separator. */
module Strings {
  /** Always at least one piece. */
  function Split(s: string, sep: char): (ps: seq<string>)
    ensures ps != []
  {
    if s == "" then [""]
    else
      var ps := Split(s[..|s| - 1], sep);
      if s[|s| - 1] == sep then ps + [""]
      else ps[..|ps| - 1] + [ps[|ps| - 1] + [s[|s| - 1]]]
  }

  function Join(ps: seq<string>, sep: char): string {
    if ps == [] then ""
    else if |ps| == 1 then ps[0]
    else Join(ps[..|ps| - 1], sep) + [sep] + ps[|ps| - 1]
  }

  lemma {:induction false} SplitHasNoSeparator(s: string, sep: char)
    ensures forall p :: p in Split(s, sep) ==> sep !in p
  {
    if s != "" {
      SplitHasNoSeparator(s[..|s| - 1], sep);
    }
  }

  lemma {:induction false} SplitWhole(s: string, sep: char)
    requires sep !in s
    ensures Split(s, sep) == [s]
  {
    if s != "" {
      SplitWhole(s[..|s| - 1], sep);
      assert s == s[..|s| - 1] + [s[|s| - 1]];
    }
  }

  lemma SplitSnoc(s: string, c: char, sep: char)
    ensures Split(s + [c], sep)
         == if c == sep then Split(s, sep) + [""] else
              Split(s, sep)[..|Split(s, sep)| - 1] + [Split(s, sep)[|Split(s, sep)| - 1] + [c]]
  {
    assert (s + [c])[..|s|] == s;
  }

  lemma {:induction false} SplitConcat(a: string, b: string, sep: char)
    ensures Split(a + [sep] + b, sep) == Split(a, sep) + Split(b, sep)
  {
    hide Split;
    if b == "" {
      assert a + [sep] + b == a + [sep];
      SplitSnoc(a, sep, sep);
      SplitWhole("", sep);
    } else {
      var front, c := b[..|b| - 1], b[|b| - 1];
      var x, y := Split(a, sep), Split(front, sep);
      assert b == front + [c];
      assert a + [sep] + b == (a + [sep] + front) + [c];
      SplitConcat(a, front, sep);
      SplitSnoc(a + [sep] + front, c, sep);
      SplitSnoc(front, c, sep);
      assert (x + y)[..|x + y| - 1] == x + y[..|y| - 1];
    }
  }

  /** A string is a piece of a joined list exactly when it is a piece of one of its elements. */
  lemma {:induction false} SplitJoin(ps: seq<string>, sep: char, p: string)
    requires ps != []
    ensures p in Split(Join(ps, sep), sep) <==> exists k :: 0 <= k < |ps| && p in Split(ps[k], sep)
  {
    hide Split;
    if |ps| > 1 {
      var front := ps[..|ps| - 1];
      SplitJoin(front, sep, p);
      SplitConcat(Join(front, sep), ps[|ps| - 1], sep);
      assert forall k :: 0 <= k < |front| ==> front[k] == ps[k];
    }
  }

  /** Joining and splitting give the list back when it has an element and none has the separator. */
  lemma {:induction false} SplitJoined(ps: seq<string>, sep: char)
    requires ps != [] && forall k :: 0 <= k < |ps| ==> sep !in ps[k]
    ensures Split(Join(ps, sep), sep) == ps
  {
    hide Split;
    var front, last := ps[..|ps| - 1], ps[|ps| - 1];
    SplitWhole(last, sep);
    if front == [] {
      assert ps == [last];
    } else {
      SplitJoined(front, sep);
      SplitConcat(Join(front, sep), last, sep);
      assert ps == front + [last];
    }
  }

  lemma {:induction false} JoinHasOnly(ps: seq<string>, sep: char, c: char)
    requires c != sep && forall k :: 0 <= k < |ps| ==> c !in ps[k]
    ensures c !in Join(ps, sep)
  {
    if |ps| > 1 {
      JoinHasOnly(ps[..|ps| - 1], sep, c);
    }
  }
}
