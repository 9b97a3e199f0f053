/**
 Normalisation of pod and container names (perfdash/pod_names.go): versions and
 hash-like infixes are cut off the pod name.
 */
module PodNames {
  import opened Text

  /** The regular expression ^v[0-9].* */
  predicate IsVersion(piece: string) {
    |piece| >= 2 && piece[0] == 'v' && '0' <= piece[1] <= '9'
  }

  const VOWELS := "eyuioa"

  predicate LooksLikeHash(piece: string) {
    |piece| >= 4 && forall k :: 0 <= k < |piece| ==> piece[k] !in VOWELS
  }

  predicate IsStable(piece: string) {
    !LooksLikeHash(piece) && !IsVersion(piece)
  }

  /** `kept` is the longest prefix of `pieces` without a hash or a version. */
  ghost predicate LongestStablePrefix(kept: seq<string>, pieces: seq<string>) {
    && kept <= pieces
    && (forall k :: 0 <= k < |kept| ==> IsStable(kept[k]))
    && (|kept| < |pieces| ==> !IsStable(pieces[|kept|]))
  }

  /** Names without a slash are left alone; otherwise the pod name keeps its longest stable prefix. */
  ghost predicate IsNormalised(name: string, r: string) {
    var slash := IndexOf(name, '/');
    if slash == -1 then r == name
    else exists kept :: LongestStablePrefix(kept, Split(name[..slash], '-')) && r == Join(kept, '-') + name[slash..]
  }

  method RemoveDisambiguationInfixes(name: string) returns (r: string)
    ensures IsNormalised(name, r)
  {
    var slash := IndexOf(name, '/');
    if slash == -1 {
      return name;
    }
    var pod, container := name[..slash], name[slash + 1..];
    var pieces := Split(pod, '-');
    var last := "";
    var i := 0;
    while i < |pieces|
      invariant 0 <= i <= |pieces|
      invariant forall k :: 0 <= k < i ==> IsStable(pieces[k])
      invariant last == Join(pieces[..i], '-')
    {
      if LooksLikeHash(pieces[i]) || IsVersion(pieces[i]) {
        break;
      }
      last := Join(pieces[..i + 1], '-');
      i := i + 1;
    }
    r := Join([last, container], '/');
    assert LongestStablePrefix(pieces[..i], pieces);
    JoinPair(last, container, '/');
    assert name[slash..] == ['/'] + container;
  }

  lemma LongestIsUnique(kept: seq<string>, kept': seq<string>, pieces: seq<string>)
    requires LongestStablePrefix(kept, pieces) && LongestStablePrefix(kept', pieces)
    ensures kept == kept'
  {
    assert kept == pieces[..|kept|] && kept' == pieces[..|kept'|];
    assert forall k :: 0 <= k < |kept| ==> IsStable(pieces[k]);
    assert forall k :: 0 <= k < |kept'| ==> IsStable(pieces[k]);
  }

  /** The result is determined by the name. */
  lemma NormalisedIsUnique(name: string, r: string, r': string)
    requires IsNormalised(name, r) && IsNormalised(name, r')
    ensures r == r'
  {
    var slash := IndexOf(name, '/');
    if slash != -1 {
      var pieces := Split(name[..slash], '-');
      var kept :| LongestStablePrefix(kept, pieces) && r == Join(kept, '-') + name[slash..];
      var kept' :| LongestStablePrefix(kept', pieces) && r' == Join(kept', '-') + name[slash..];
      LongestIsUnique(kept, kept', pieces);
    }
  }

  // ----- Which names lose what -----

  /** A piece that says what a pod is: short or with a vowel in it, and not a version. */
  predicate IsWord(piece: string) {
    && (|piece| <= 3 || exists c :: c in piece && c in "aeiouy")
    && !(piece != [] && piece[0] == 'v' && |piece| > 1 && piece[1] in "0123456789")
  }

  lemma WordIsStable(piece: string)
    ensures IsWord(piece) <==> IsStable(piece)
  {
    assert forall c :: c in VOWELS <==> c in "aeiouy";
    assert |piece| > 1 ==> (piece[1] in "0123456789" <==> '0' <= piece[1] <= '9') by {
      if |piece| > 1 {
        DigitMeans(piece[1]);
      }
    }
    if c :| c in piece && c in "aeiouy" {
      var k :| 0 <= k < |piece| && piece[k] == c;
      assert piece[k] in VOWELS;
    }
  }

  lemma DigitMeans(c: char)
    ensures c in "0123456789" <==> '0' <= c <= '9'
  {
    if '0' <= c <= '9' {
      assert c == "0123456789"[c as int - '0' as int];
    }
  }

  /** The pieces of a pod name, none of them with a separator in it. */
  ghost predicate ArePieces(pieces: seq<string>) {
    pieces != [] && forall k :: 0 <= k < |pieces| ==> '-' !in pieces[k] && '/' !in pieces[k]
  }

  /** From the first piece on that is not a word, everything goes; a name of words only stays as it is. */
  lemma WordsAreKept(words: seq<string>, rest: seq<string>, container: string)
    requires ArePieces(words + rest)
    requires forall k :: 0 <= k < |words| ==> IsWord(words[k])
    requires rest != [] ==> !IsWord(rest[0])
    ensures IsNormalised(Join(words + rest, '-') + "/" + container, Join(words, '-') + "/" + container)
  {
    hide Split, Join, IsStable, IsWord;
    var pieces := words + rest;
    var pod := Join(pieces, '-');
    var name := pod + "/" + container;
    JoinCharacters(pieces, '-', '/');
    IndexAfterPrefix(pod, '/', container);
    assert name == pod + ['/'] + container;
    assert name[..|pod|] == pod && name[|pod|..] == "/" + container;
    SplitOfJoin(pieces, '-');
    forall k | 0 <= k < |words| ensures IsStable(words[k]) {
      WordIsStable(words[k]);
    }
    if rest != [] {
      WordIsStable(rest[0]);
      assert pieces[|words|] == rest[0];
    }
    assert LongestStablePrefix(words, pieces);
    assert Join(words, '-') + "/" + container == Join(words, '-') + name[|pod|..];
  }

  lemma VowelMakesWord(piece: string, k: nat)
    requires k < |piece| && piece[k] == 'e' && piece[0] != 'v'
    ensures IsWord(piece)
  {
    assert "aeiouy"[1] == 'e' && piece[k] in piece;
  }

  lemma VersionIsNoWord(piece: string)
    requires |piece| > 1 && piece[0] == 'v' && piece[1] == '0'
    ensures !IsWord(piece)
  {
    assert "0123456789"[0] == '0';
  }

  lemma PiecesOfFive(a: string, b: string, c: string, d: string, e: string)
    requires '-' !in a && '-' !in b && '-' !in c && '-' !in d && '-' !in e
    requires '/' !in a && '/' !in b && '/' !in c && '/' !in d && '/' !in e
    ensures ArePieces([a, b] + [c, d, e])
  {
    assert [a, b] + [c, d, e] == [a, b, c, d, e];
  }

  /** So an exporter loses its version and hashes. */
  lemma ExporterIsCut()
    ensures
      IsNormalised(
        Join(["event", "exporter"] + ["v0.1.7", "9d4dbb69c", "sff9w"], '-') + "/" + "event-exporter",
        Join(["event", "exporter"], '-') + "/" + "event-exporter")
  {
    hide IsWord, ArePieces, IsNormalised, Join;
    VowelMakesWord("event", 0);
    VowelMakesWord("exporter", 0);
    VersionIsNoWord("v0.1.7");
    PiecesOfFive("event", "exporter", "v0.1.7", "9d4dbb69c", "sff9w");
    WordsAreKept(["event", "exporter"], ["v0.1.7", "9d4dbb69c", "sff9w"], "event-exporter");
  }

  lemma EmptyPodIsStable()
    ensures Join([], '-') == "" == Join([""], '-')
    ensures LongestStablePrefix([""], Split("", '-'))
  {
  }

  /** A normalised name is its own normal form. */
  lemma NormalisingIsIdempotent(name: string, r: string)
    requires IsNormalised(name, r)
    ensures IsNormalised(r, r)
  {
    hide Split, Join, IsStable;
    var slash := IndexOf(name, '/');
    if slash != -1 {
      var pod := name[..slash];
      var pieces := Split(pod, '-');
      var kept :| LongestStablePrefix(kept, pieces) && r == Join(kept, '-') + name[slash..];
      SplitCharacters(pod, '-', '/');
      JoinCharacters(kept, '-', '/');
      assert name[slash..] == ['/'] + name[slash + 1..];
      assert r == Join(kept, '-') + ['/'] + name[slash + 1..];
      IndexAfterPrefix(Join(kept, '-'), '/', name[slash + 1..]);
      assert r[..|Join(kept, '-')|] == Join(kept, '-') && r[|Join(kept, '-')|..] == name[slash..];
      if kept == [] {
        EmptyPodIsStable();
      } else {
        SplitOfJoin(kept, '-');
        assert LongestStablePrefix(kept, kept);
      }
    }
  }
}
