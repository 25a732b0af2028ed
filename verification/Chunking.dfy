/** Splitting an article's text into words and the words into chunks. */
module Chunking {

  const CHUNK_WORDS: nat := 180

  ghost predicate IsWord(w: string, space: char -> bool) {
    w != "" && forall i :: 0 <= i < |w| ==> !space(w[i])
  }

  /** The length of the word at the front. */
  function WordLength(s: string, space: char -> bool): (n: nat)
    ensures n <= |s| && (forall i :: 0 <= i < n ==> !space(s[i]))
    ensures n < |s| ==> space(s[n])
  {
    if s == "" || space(s[0]) then 0 else 1 + WordLength(s[1..], space)
  }

  /** `s.split()`. */
  function Words(s: string, space: char -> bool): (ws: seq<string>)
    ensures forall i :: 0 <= i < |ws| ==> IsWord(ws[i], space)
    decreases |s|
  {
    if s == "" then []
    else if space(s[0]) then Words(s[1..], space)
    else
      var n := WordLength(s, space);
      [s[..n]] + Words(s[n..], space)
  }

  // ----- what the words of a text are

  /** The characters of a text that are not whitespace. */
  function NonSpace(s: string, space: char -> bool): string {
    if s == "" then "" else (if space(s[0]) then "" else [s[0]]) + NonSpace(s[1..], space)
  }

  /** Words put together without anything between them. */
  function Glue(ws: seq<string>): string {
    if ws == [] then "" else ws[0] + Glue(ws[1..])
  }

  /** Word `k` is the part of the text from spans[k].0 up to spans[k].1. The parts are in order with something
      between them, and a character belongs to one of them exactly if it is not whitespace. */
  ghost predicate Splits(s: string, space: char -> bool, spans: seq<(nat, nat)>, ws: seq<string>) {
    && |spans| == |ws|
    && (forall k :: 0 <= k < |ws| ==> spans[k].0 < spans[k].1 <= |s| && ws[k] == s[spans[k].0..spans[k].1])
    && (forall k, l :: 0 <= k < l < |ws| ==> spans[k].1 < spans[l].0)
    && (forall i :: 0 <= i < |s| ==> (Covered(spans, i) <==> !space(s[i])))
  }

  ghost predicate Covered(spans: seq<(nat, nat)>, i: int) {
    exists k :: 0 <= k < |spans| && spans[k].0 <= i < spans[k].1
  }

  function Shifted(spans: seq<(nat, nat)>, n: nat): (r: seq<(nat, nat)>)
    ensures |r| == |spans| && forall k :: 0 <= k < |r| ==> r[k] == (spans[k].0 + n, spans[k].1 + n)
  {
    seq(|spans|, k requires 0 <= k < |spans| => (spans[k].0 + n, spans[k].1 + n))
  }

  lemma ShiftedCovers(spans: seq<(nat, nat)>, n: nat, i: int)
    ensures Covered(Shifted(spans, n), i) <==> Covered(spans, i - n)
  {
    var moved := Shifted(spans, n);
    if Covered(spans, i - n) {
      var k :| 0 <= k < |spans| && spans[k].0 <= i - n < spans[k].1;
      assert moved[k].0 <= i < moved[k].1;
    }
    if Covered(moved, i) {
      var k :| 0 <= k < |moved| && moved[k].0 <= i < moved[k].1;
      assert spans[k].0 <= i - n < spans[k].1;
    }
  }

  lemma SplitsPastSpace(s: string, space: char -> bool, spans: seq<(nat, nat)>, ws: seq<string>)
    requires s != "" && space(s[0]) && Splits(s[1..], space, spans, ws)
    ensures Splits(s, space, Shifted(spans, 1), ws)
  {
    var moved := Shifted(spans, 1);
    forall i | 0 <= i < |s| ensures Covered(moved, i) <==> !space(s[i]) {
      ShiftedCovers(spans, 1, i);
      assert i > 0 ==> s[1..][i - 1] == s[i];
    }
  }

  lemma SplitsPastWord(s: string, space: char -> bool, n: nat, spans: seq<(nat, nat)>, ws: seq<string>)
    requires 0 < n <= |s| && (forall i :: 0 <= i < n ==> !space(s[i])) && (n < |s| ==> space(s[n]))
    requires Splits(s[n..], space, spans, ws)
    ensures Splits(s, space, [(0, n)] + Shifted(spans, n), [s[..n]] + ws)
  {
    StartsLater(s[n..], space, spans, ws);
    PartsMove(s, space, n, spans, ws);
    forall i | 0 <= i < |s| ensures Covered([(0, n)] + Shifted(spans, n), i) <==> !space(s[i]) {
      CoversMove(s, space, n, spans, ws, i);
    }
    hide Covered;
  }

  lemma StartsLater(s: string, space: char -> bool, spans: seq<(nat, nat)>, ws: seq<string>)
    requires Splits(s, space, spans, ws) && (s == "" || space(s[0]))
    ensures forall k :: 0 <= k < |spans| ==> spans[k].0 > 0
  {
    assert s != "" ==> !Covered(spans, 0);
    assert forall k :: 0 <= k < |spans| && spans[k].0 == 0 ==> spans[k].1 <= |s| && Covered(spans, 0);
  }

  lemma CoversMove(s: string, space: char -> bool, n: nat, spans: seq<(nat, nat)>, ws: seq<string>, i: nat)
    requires n <= |s| && (forall i :: 0 <= i < n ==> !space(s[i])) && Splits(s[n..], space, spans, ws) && i < |s|
    ensures Covered([(0, n)] + Shifted(spans, n), i) <==> !space(s[i])
  {
    ShiftedCovers(spans, n, i);
    FrontCovers((0, n), Shifted(spans, n), i);
    if i >= n {
      assert s[n..][i - n] == s[i];
    } else {
      assert !Covered(spans, i - n);
    }
  }

  lemma PartsMove(s: string, space: char -> bool, n: nat, spans: seq<(nat, nat)>, ws: seq<string>)
    requires 0 < n <= |s| && Splits(s[n..], space, spans, ws)
    ensures var all, words := [(0, n)] + Shifted(spans, n), [s[..n]] + ws;
            |all| == |words| && forall k :: 0 <= k < |words| ==>
              all[k].0 < all[k].1 <= |s| && words[k] == s[all[k].0..all[k].1]
  {
    hide Covered;
    forall k | 0 <= k < |ws| ensures ws[k] == s[spans[k].0 + n..spans[k].1 + n] {
      assert ws[k] == s[n..][spans[k].0..spans[k].1];
    }
  }

  lemma FrontCovers(span: (nat, nat), spans: seq<(nat, nat)>, i: int)
    ensures Covered([span] + spans, i) <==> span.0 <= i < span.1 || Covered(spans, i)
  {
    var all := [span] + spans;
    if span.0 <= i < span.1 { assert all[0].0 <= i < all[0].1; }
    if Covered(spans, i) {
      var k :| 0 <= k < |spans| && spans[k].0 <= i < spans[k].1;
      assert all[k + 1].0 <= i < all[k + 1].1;
    }
  }

  /** The words of any text are its stretches without whitespace, in order and none left out. */
  lemma {:induction false} WordsSplit(s: string, space: char -> bool) returns (spans: seq<(nat, nat)>)
    ensures Splits(s, space, spans, Words(s, space))
    decreases |s|
  {
    hide Splits;
    if s == "" {
      spans := [];
      NothingToSplit(space);
    } else if space(s[0]) {
      var rest := WordsSplit(s[1..], space);
      spans := Shifted(rest, 1);
      SplitsPastSpace(s, space, rest, Words(s[1..], space));
    } else {
      var n := WordLength(s, space);
      var rest := WordsSplit(s[n..], space);
      spans := [(0, n)] + Shifted(rest, n);
      SplitsPastWord(s, space, n, rest, Words(s[n..], space));
    }
  }

  lemma NothingToSplit(space: char -> bool)
    ensures Splits("", space, [], [])
  {
  }

  /** Two characters are in one word exactly if there is no whitespace from the one to the other. */
  lemma OneWordExactly(s: string, space: char -> bool, spans: seq<(nat, nat)>, ws: seq<string>, i: nat, j: nat)
    requires Splits(s, space, spans, ws) && i <= j < |s|
    ensures (exists k :: 0 <= k < |spans| && spans[k].0 <= i && j < spans[k].1)
       <==> forall m :: i <= m <= j ==> !space(s[m])
  {
    if k :| 0 <= k < |spans| && spans[k].0 <= i && j < spans[k].1 {
      forall m | i <= m <= j ensures !space(s[m]) { assert Covered(spans, m); }
    }
    if forall m :: i <= m <= j ==> !space(s[m]) {
      assert Covered(spans, i);
      var k :| 0 <= k < |spans| && spans[k].0 <= i < spans[k].1;
      if spans[k].1 <= j { EndIsSpace(s, space, spans, ws, k); }
    }
  }

  /** What follows a word is whitespace. */
  lemma EndIsSpace(s: string, space: char -> bool, spans: seq<(nat, nat)>, ws: seq<string>, k: nat)
    requires Splits(s, space, spans, ws) && k < |spans| && spans[k].1 < |s|
    ensures space(s[spans[k].1])
  {
    var end := spans[k].1;
    assert forall l :: 0 <= l < |spans| ==> !(spans[l].0 <= end < spans[l].1);
    assert !Covered(spans, end);
  }

  lemma {:induction false} NonSpaceSum(a: string, b: string, space: char -> bool)
    ensures NonSpace(a + b, space) == NonSpace(a, space) + NonSpace(b, space)
  {
    if a == "" {
      assert a + b == b;
    } else {
      assert (a + b)[1..] == a[1..] + b;
      NonSpaceSum(a[1..], b, space);
    }
  }

  lemma {:induction false} NonSpaceOfWord(w: string, space: char -> bool)
    requires forall i :: 0 <= i < |w| ==> !space(w[i])
    ensures NonSpace(w, space) == w
  {
    if w != "" {
      NonSpaceOfWord(w[1..], space);
      assert w == [w[0]] + w[1..];
    }
  }

  /** The words put together are the text without its whitespace. */
  lemma {:induction false} WordsKeepCharacters(s: string, space: char -> bool)
    ensures Glue(Words(s, space)) == NonSpace(s, space)
    decreases |s|
  {
    if s != "" {
      if space(s[0]) {
        WordsKeepCharacters(s[1..], space);
      } else {
        var n := WordLength(s, space);
        var w, rest := s[..n], s[n..];
        WordsKeepCharacters(rest, space);
        NonSpaceOfWord(w, space);
        assert s == w + rest;
        NonSpaceSum(w, rest, space);
        var ws := Words(rest, space);
        assert ([w] + ws)[1..] == ws;
      }
    }
  }

  lemma {:induction false} GlueSum(a: seq<string>, b: seq<string>)
    ensures Glue(a + b) == Glue(a) + Glue(b)
  {
    if a == [] {
      assert a + b == b;
    } else {
      assert (a + b)[1..] == a[1..] + b;
      GlueSum(a[1..], b);
    }
  }

  /** `" ".join(ws)`. */
  function Join(ws: seq<string>): string {
    if ws == [] then "" else if |ws| == 1 then ws[0] else ws[0] + " " + Join(ws[1..])
  }

  lemma {:induction false} FrontWord(w: string, rest: string, space: char -> bool)
    requires forall i :: 0 <= i < |w| ==> !space(w[i])
    requires rest == "" || space(rest[0])
    ensures WordLength(w + rest, space) == |w|
  {
    if w != "" {
      assert (w + rest)[1..] == w[1..] + rest;
      FrontWord(w[1..], rest, space);
    } else {
      assert w + rest == rest;
    }
  }

  /** Splitting a chunk's stored text gives back the words it was joined from. */
  lemma {:induction false} JoinRoundTrip(ws: seq<string>, space: char -> bool)
    requires space(' ') && forall i :: 0 <= i < |ws| ==> IsWord(ws[i], space)
    ensures Words(Join(ws), space) == ws
  {
    if ws != [] {
      var rest := if |ws| == 1 then "" else " " + Join(ws[1..]);
      assert Join(ws) == ws[0] + rest;
      FrontWord(ws[0], rest, space);
      assert (ws[0] + rest)[..|ws[0]|] == ws[0] && (ws[0] + rest)[|ws[0]|..] == rest;
      JoinRoundTrip(ws[1..], space);
      assert |ws| > 1 ==> rest[1..] == Join(ws[1..]);
      assert Words(rest, space) == ws[1..];
      assert IsWord(ws[0], space);
      assert ws == [ws[0]] + ws[1..];
    }
  }

  /** Where the slice from `offset` ends. */
  function End(ws: seq<string>, offset: nat): nat {
    if offset + CHUNK_WORDS < |ws| then offset + CHUNK_WORDS else |ws|
  }

  /** The slices `words[offset : offset + 180]` from `offset` on. */
  function Slices(ws: seq<string>, offset: nat): seq<seq<string>>
    decreases |ws| - offset
  {
    if offset >= |ws| then []
    else [ws[offset..End(ws, offset)]] + Slices(ws, offset + CHUNK_WORDS)
  }

  function Concatenated(parts: seq<seq<string>>): seq<string> {
    if parts == [] then [] else parts[0] + Concatenated(parts[1..])
  }

  /** The slices hold every word once and in order; each has 1 to 180 words, and all but the last 180. */
  lemma {:induction false} SlicesPartitionTheWords(ws: seq<string>, offset: nat)
    requires offset <= |ws|
    ensures Concatenated(Slices(ws, offset)) == ws[offset..]
    ensures forall i :: 0 <= i < |Slices(ws, offset)| ==> 1 <= |Slices(ws, offset)[i]| <= 180
    ensures forall i :: 0 <= i < |Slices(ws, offset)| - 1 ==> |Slices(ws, offset)[i]| == 180
    ensures Slices(ws, offset) == [] <==> offset == |ws|
    decreases |ws| - offset
  {
    var parts := Slices(ws, offset);
    if offset < |ws| {
      var end := if offset + CHUNK_WORDS < |ws| then offset + CHUNK_WORDS else |ws|;
      assert parts[0] == ws[offset..end];
      if end < |ws| {
        SlicesPartitionTheWords(ws, end);
        assert parts[1..] == Slices(ws, end);
        assert ws[offset..] == ws[offset..end] + ws[end..];
        assert forall i :: 1 <= i < |parts| ==> parts[i] == Slices(ws, end)[i - 1];
      } else {
        assert ws[offset..end] == ws[offset..];
        assert Slices(ws, offset + CHUNK_WORDS) == [];
        assert parts[1..] == [];
      }
    }
  }
}
