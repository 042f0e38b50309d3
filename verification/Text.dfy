/** strtok() with one separator, and the texts it takes apart again. */
module Text {

  /** A word that strtok() can return. */
  predicate Word<T(==)>(w: seq<T>, sep: T) {
    w != [] && sep !in w
  }

  predicate Words<T(==)>(ws: seq<seq<T>>, sep: T) {
    forall i :: 0 <= i < |ws| ==> Word(ws[i], sep)
  }

  /** The length of the text before the first separator. */
  function Span<T(==)>(s: seq<T>, sep: T): (n: nat)
    ensures n <= |s| && (n < |s| ==> s[n] == sep)
    ensures forall i :: 0 <= i < n ==> s[i] != sep
  {
    if s == [] || s[0] == sep then 0 else 1 + Span(s[1..], sep)
  }

  /** The tokens that repeated calls of strtok() return. */
  function Tokens<T(==)>(s: seq<T>, sep: T): (ts: seq<seq<T>>)
    ensures Words(ts, sep)
    decreases |s|
  {
    if s == [] then []
    else if s[0] == sep then Tokens(s[1..], sep)
    else
      var n := Span(s, sep);
      assert sep !in s[..n];
      [s[..n]] + Tokens(s[n..], sep)
  }

  /** What the first call of strtok() leaves of its argument: it ends the text behind the first
      token. */
  function Cut<T(==)>(s: seq<T>, sep: T): seq<T> {
    if s == [] then [] else if s[0] == sep then [sep] + Cut(s[1..], sep) else s[..Span(s, sep)]
  }

  lemma {:induction false} TokensCut<T>(s: seq<T>, sep: T)
    ensures var ts := Tokens(s, sep); Tokens(Cut(s, sep), sep) == if ts == [] then [] else [ts[0]]
  {
    if s != [] && s[0] == sep {
      TokensCut(s[1..], sep);
      assert Cut(s, sep)[1..] == Cut(s[1..], sep);
    } else if s != [] {
      var w := s[..Span(s, sep)];
      TokensWord(w, [], sep);
      assert w + [] == w;
    }
  }

  function Join<T>(ws: seq<seq<T>>, sep: T): seq<T> {
    if ws == [] then [] else if |ws| == 1 then ws[0] else ws[0] + [sep] + Join(ws[1..], sep)
  }

  /** Every word behind a separator: the absolute path of a sequence of names. */
  function Prefixed<T>(ws: seq<seq<T>>, sep: T): seq<T> {
    if ws == [] then [] else [sep] + ws[0] + Prefixed(ws[1..], sep)
  }

  lemma {:induction false} SpanWord<T>(w: seq<T>, rest: seq<T>, sep: T)
    requires sep !in w && (rest == [] || rest[0] == sep)
    ensures Span(w + rest, sep) == |w|
  {
    forall i | 0 <= i < |w| ensures (w + rest)[i] != sep { assert (w + rest)[i] == w[i] && w[i] in w; }
    assert rest != [] ==> (w + rest)[|w|] == rest[0];
  }

  lemma {:induction false} TokensWord<T>(w: seq<T>, rest: seq<T>, sep: T)
    requires Word(w, sep) && (rest == [] || rest[0] == sep)
    ensures Tokens(w + rest, sep) == [w] + Tokens(rest, sep)
  {
    var s := w + rest;
    SpanWord(w, rest, sep);
    assert s[0] == w[0] && w[0] in w;
    assert s[..|w|] == w && s[|w|..] == rest;
  }

  /** Taking a joined text apart gives the words back. */
  lemma {:induction false} TokensJoin<T>(ws: seq<seq<T>>, sep: T)
    requires Words(ws, sep)
    ensures Tokens(Join(ws, sep), sep) == ws
  {
    if |ws| == 1 {
      TokensWord(ws[0], [], sep);
      assert ws[0] + [] == ws[0];
    } else if |ws| > 1 {
      var rest := Join(ws[1..], sep);
      TokensJoin(ws[1..], sep);
      TokensWord(ws[0], [sep] + rest, sep);
      assert ws[0] + ([sep] + rest) == Join(ws, sep);
      assert ([sep] + rest)[1..] == rest;
    }
  }

  /** A separator ends a token, wherever it stands; so runs of separators and separators at either
      end make no difference. */
  lemma {:induction false} TokensSplit<T>(a: seq<T>, b: seq<T>, sep: T)
    ensures Tokens(a + [sep] + b, sep) == Tokens(a, sep) + Tokens(b, sep)
    decreases |a|
  {
    var s := a + [sep] + b;
    if a == [] {
      assert s[1..] == b && [] + Tokens(b, sep) == Tokens(b, sep);
    } else if a[0] == sep {
      assert s[1..] == a[1..] + [sep] + b;
      TokensSplit(a[1..], b, sep);
    } else {
      var n := Span(a, sep);
      var w := a[..n];
      forall i | 0 <= i < n ensures w[i] != sep { }
      assert a == w + a[n..] && s == w + (a[n..] + [sep] + b);
      TokensWord(w, a[n..], sep);
      TokensWord(w, a[n..] + [sep] + b, sep);
      TokensSplit(a[n..], b, sep);
      assert [w] + (Tokens(a[n..], sep) + Tokens(b, sep)) == ([w] + Tokens(a[n..], sep)) + Tokens(b, sep);
    }
  }

  lemma {:induction false} TokensPrefixed<T>(ws: seq<seq<T>>, sep: T)
    requires Words(ws, sep)
    ensures Tokens(Prefixed(ws, sep), sep) == ws
  {
    if ws != [] {
      var rest := Prefixed(ws[1..], sep);
      TokensPrefixed(ws[1..], sep);
      TokensWord(ws[0], rest, sep);
      assert Prefixed(ws, sep)[1..] == ws[0] + rest;
    }
  }

  /** An absolute path is a slash and the relative path of the same names. */
  lemma {:induction false} PrefixedIsJoin<T>(ws: seq<seq<T>>, sep: T)
    requires ws != []
    ensures Prefixed(ws, sep) == [sep] + Join(ws, sep)
  {
    if |ws| > 1 {
      PrefixedIsJoin(ws[1..], sep);
      assert [sep] + ws[0] + ([sep] + Join(ws[1..], sep)) == [sep] + (ws[0] + [sep] + Join(ws[1..], sep));
    } else {
      assert Prefixed(ws[1..], sep) == [] && [sep] + ws[0] + [] == [sep] + ws[0];
    }
  }

  lemma {:induction false} JoinAppend<T>(ws: seq<seq<T>>, w: seq<T>, sep: T)
    ensures Join(ws + [w], sep) == if ws == [] then w else Join(ws, sep) + [sep] + w
  {
    PrefixedAppend(ws, w, sep);
    PrefixedIsJoin(ws + [w], sep);
    assert Prefixed(ws + [w], sep)[1..] == Join(ws + [w], sep);
    if ws == [] {
      assert Prefixed(ws, sep) == [] && ([] + [sep] + w)[1..] == w;
    } else {
      PrefixedIsJoin(ws, sep);
      assert ([sep] + Join(ws, sep) + [sep] + w)[1..] == Join(ws, sep) + [sep] + w;
    }
  }

  /** What is joined from words ends in none of the separators. */
  lemma {:induction false} JoinEnd<T>(ws: seq<seq<T>>, sep: T)
    requires ws != [] && Words(ws, sep)
    ensures var p := Join(ws, sep); p != [] && p[0] != sep && p[|p| - 1] != sep
  {
    var front, w := ws[..|ws| - 1], ws[|ws| - 1];
    assert ws == front + [w] && Word(w, sep) && Word(ws[0], sep);
    assert w[|w| - 1] in w && ws[0][0] in ws[0];
    JoinAppend(front, w, sep);
  }

  lemma {:induction false} PrefixedAppend<T>(ws: seq<seq<T>>, w: seq<T>, sep: T)
    ensures Prefixed(ws + [w], sep) == Prefixed(ws, sep) + [sep] + w
  {
    if ws == [] {
      assert Prefixed([w], sep) == [sep] + w + Prefixed([w][1..], sep);
    } else {
      PrefixedAppend(ws[1..], w, sep);
      assert (ws + [w])[1..] == ws[1..] + [w];
    }
  }

  lemma {:induction false} WordsAppend<T>(ws: seq<seq<T>>, w: seq<T>, sep: T)
    requires Words(ws, sep) && Word(w, sep)
    ensures Words(ws + [w], sep)
  {
  }
}
