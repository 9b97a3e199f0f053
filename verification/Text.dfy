/** Splitting and joining strings at a separator (strings.Split, strings.Join). */
module Text {

  function Split(s: string, separator: char): (r: seq<string>)
    ensures r != []
    ensures forall k :: 0 <= k < |r| ==> separator !in r[k]
  {
    if s == [] then [[]]
    else
      var rest := Split(s[1..], separator);
      if s[0] == separator then [[]] + rest else [[s[0]] + rest[0]] + rest[1..]
  }

  function Join(pieces: seq<string>, separator: char): string {
    if pieces == [] then []
    else if |pieces| == 1 then pieces[0]
    else pieces[0] + [separator] + Join(pieces[1..], separator)
  }

  lemma {:induction false} JoinOfSplit(s: string, separator: char)
    ensures Join(Split(s, separator), separator) == s
  {
    if s != [] {
      JoinOfSplit(s[1..], separator);
      var rest := Split(s[1..], separator);
      if s[0] == separator {
        assert ([[]] + rest)[1..] == rest;
      } else {
        var pieces := [[s[0]] + rest[0]] + rest[1..];
        assert pieces[1..] == rest[1..];
        assert s == [s[0]] + s[1..];
      }
    }
  }

  lemma SplitCons(c: char, s: string, separator: char)
    ensures Split([c] + s, separator) ==
            if c == separator then [[]] + Split(s, separator)
            else [[c] + Split(s, separator)[0]] + Split(s, separator)[1..]
    ensures Split([], separator) == [[]]
  {
    assert ([c] + s)[1..] == s;
  }

  /** Splitting distributes over a separator. */
  lemma {:induction false} SplitAtSeparator(a: string, b: string, separator: char)
    ensures Split(a + [separator] + b, separator) == Split(a, separator) + Split(b, separator)
  {
    hide Split;
    SplitCons(separator, b, separator);
    if a == [] {
      assert a + [separator] + b == [separator] + b;
    } else {
      var rest := a[1..] + [separator] + b;
      assert a + [separator] + b == [a[0]] + rest;
      assert a == [a[0]] + a[1..];
      SplitAtSeparator(a[1..], b, separator);
      SplitCons(a[0], rest, separator);
      SplitCons(a[0], a[1..], separator);
    }
  }

  lemma {:induction false} SplitWhole(s: string, separator: char)
    requires separator !in s
    ensures Split(s, separator) == [s]
  {
    if s != [] {
      SplitWhole(s[1..], separator);
      assert s == [s[0]] + s[1..];
    }
  }

  lemma {:induction false} SplitOfJoin(pieces: seq<string>, separator: char)
    requires pieces != [] && forall k :: 0 <= k < |pieces| ==> separator !in pieces[k]
    ensures Split(Join(pieces, separator), separator) == pieces
  {
    SplitWhole(pieces[0], separator);
    if |pieces| > 1 {
      SplitOfJoin(pieces[1..], separator);
      SplitAtSeparator(pieces[0], Join(pieces[1..], separator), separator);
      assert pieces == [pieces[0]] + pieces[1..];
    } else {
      assert pieces == [pieces[0]];
    }
  }

  lemma JoinPair(a: string, b: string, separator: char)
    ensures Join([a, b], separator) == a + ([separator] + b)
  {
    assert [a, b][1..] == [b];
    assert Join([b], separator) == b;
  }

  lemma {:induction false} JoinConcat(a: seq<string>, b: seq<string>, separator: char)
    requires a != [] && b != []
    ensures Join(a + b, separator) == Join(a, separator) + [separator] + Join(b, separator)
  {
    if |a| == 1 {
      assert (a + b)[1..] == b;
    } else {
      JoinConcat(a[1..], b, separator);
      assert (a + b)[1..] == a[1..] + b;
      assert a[0] + [separator] + (Join(a[1..], separator) + [separator] + Join(b, separator))
          == a[0] + [separator] + Join(a[1..], separator) + [separator] + Join(b, separator);
    }
  }

  /** Joining introduces no character but the separator. */
  lemma {:induction false} JoinCharacters(pieces: seq<string>, separator: char, c: char)
    requires c != separator && forall k :: 0 <= k < |pieces| ==> c !in pieces[k]
    ensures c !in Join(pieces, separator)
  {
    if |pieces| > 1 {
      JoinCharacters(pieces[1..], separator, c);
    }
  }

  lemma {:induction false} SplitCharacters(s: string, separator: char, c: char)
    requires c !in s
    ensures forall k :: 0 <= k < |Split(s, separator)| ==> c !in Split(s, separator)[k]
  {
    if s != [] {
      SplitCharacters(s[1..], separator, c);
    }
  }

  /** The first position of `c`, or -1. */
  function IndexOf(s: string, c: char): (r: int)
    ensures -1 <= r < |s|
    ensures r == -1 ==> c !in s
    ensures r >= 0 ==> s[r] == c && c !in s[..r]
  {
    if s == [] then -1
    else if s[0] == c then 0
    else
      var r := IndexOf(s[1..], c);
      if r == -1 then -1 else r + 1
  }

  lemma {:induction false} IndexAfterPrefix(a: string, c: char, b: string)
    requires c !in a
    ensures IndexOf(a + [c] + b, c) == |a|
  {
    if a != [] {
      assert (a + [c] + b)[1..] == a[1..] + [c] + b;
      IndexAfterPrefix(a[1..], c, b);
    }
  }
}
