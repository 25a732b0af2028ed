/** The streaming form of `sanitize_citations`: it sees the answer chunk by chunk and may hold back at
    most 32 characters. */
module CitationStream {
  import opened Wrappers
  import opened Citations

  const FLUSH_LIMIT: nat := 32

  /** Text the filter may keep to itself: nothing, or a short run that opens a bracket and does not
      close one. */
  predicate Holdable(s: string) {
    s == "" || (s[0] == '[' && ']' !in s && |s| <= FLUSH_LIMIT)
  }

  /** Where the longest holdable suffix starts. */
  function HoldFrom(s: string): (k: nat)
    ensures k <= |s| && Holdable(s[k..])
    ensures forall j :: 0 <= j < k ==> !Holdable(s[j..])
  {
    if Holdable(s) then
      assert s[0..] == s;
      0
    else
      var k := HoldFrom(s[1..]) + 1;
      assert forall j :: 1 <= j <= |s| ==> s[j..] == s[1..][j - 1..];
      assert s[0..] == s;
      k
  }

  lemma LongestHeld(w: string)
    ensures var held := w[HoldFrom(w)..];
            && |held| <= 32 && (held != "" ==> held[0] == '[' && ']' !in held)
            && forall j :: 0 <= j < |w| - |held| && |w| - j <= 32 && w[j] == '[' ==> ']' in w[j..]
  {
    forall j | 0 <= j < HoldFrom(w) && |w| - j <= 32 && w[j] == '[' ensures ']' in w[j..] {
      assert !Holdable(w[j..]);
    }
  }

  lemma HoldFromIsUnique(s: string, k: nat)
    requires k <= |s| && Holdable(s[k..])
    requires forall j :: 0 <= j < k ==> !Holdable(s[j..])
    ensures HoldFrom(s) == k
  {
    assert HoldFrom(s) >= k;
  }

  /** `s.find(c)`, with `None` for -1. */
  function Find(c: char, s: string): (r: Option<nat>)
    ensures r.None? <==> c !in s
    ensures r.Some? ==> r.value < |s| && s[r.value] == c && c !in s[..r.value]
  {
    if s == "" then None
    else if s[0] == c then Some(0)
    else match Find(c, s[1..])
      case None => None
      case Some(k) =>
        assert s[..k + 1] == [s[0]] + s[1..][..k];
        Some(k + 1)
  }

  // ----- one step of the scan, on values

  /** No token of `w` starts before `k` and ends after it. */
  ghost predicate Clear(d: Digits, w: string, k: nat)
    requires k <= |w|
  {
    forall i :: 0 <= i < k ==> i + TokenLength(d, w[i..]) <= k
  }

  lemma AdvanceClear(d: Digits, w: string, k: nat)
    requires k < |w| && Clear(d, w, k)
    ensures Clear(d, w, Next(d, w, k))
  {
    hide TokenLength;
    var m := Next(d, w, k);
    forall i | 0 <= i < m ensures i + TokenLength(d, w[i..]) <= m {
      if k < i {
        assert w[k..][i - k] == w[i..][0] == w[i];
        TokenShape(d, w[k..]);
        if TokenLength(d, w[i..]) > 0 { TokenShape(d, w[i..]); }
      }
    }
  }

  /** The position after the token at `k`, or after the one character there. */
  function Next(d: Digits, w: string, k: nat): (m: nat)
    requires k < |w|
    ensures k < m <= |w|
  {
    var n := TokenLength(d, w[k..]);
    if n == 0 then k + 1 else k + n
  }

  lemma OneStep(d: Digits, allowed: set<string>, s: string)
    requires s != ""
    ensures var n := TokenLength(d, s);
            Sanitize(d, allowed, s[..Next(d, s, 0)])
            == if n == 0 then [s[0]] else if TokenId(d, s) in allowed then s[..n] else ""
  {
    hide TokenLength;
    assert s[0..] == s;
    var n := TokenLength(d, s);
    var y := s[..Next(d, s, 0)];
    assert y + s[|y|..] == s;
    MatchIsLocal(d, y, s[|y|..]);
    if n > 0 {
      assert y[..n] == y && y[n..] == "" && TokenId(d, y) == TokenId(d, s);
    } else {
      assert y[1..] == "" && TokenLength(d, y) == 0 && y[0] == s[0];
    }
  }

  /** Moving the scan over one token, or over one character that starts none. */
  lemma Advance(d: Digits, allowed: set<string>, w: string, k: nat)
    requires k < |w| && Clear(d, w, k)
    ensures var n := TokenLength(d, w[k..]);
            var m := Next(d, w, k);
            && Clear(d, w, m)
            && Sanitize(d, allowed, w[..m])
               == Sanitize(d, allowed, w[..k])
                  + (if n == 0 then [w[k]] else if TokenId(d, w[k..]) in allowed then w[k..m] else "")
  {
    hide TokenLength;
    AdvanceClear(d, w, k);
    var m := Next(d, w, k);
    var x, y := w[..k], w[k..m];
    assert x + y == w[..m];
    forall i | 0 <= i < |x| ensures KeptAcross(d, allowed, x[i..], y) {
      assert x[i..] + y == w[i..m] && w[i..] == w[i..m] + w[m..];
      MatchIsLocal(d, w[i..m], w[m..]);
    }
    SanitizeSeam(d, allowed, x, y);
    assert w[k..][0..] == w[k..] && w[k..][..Next(d, w[k..], 0)] == y;
    OneStep(d, allowed, w[k..]);
  }

  /** Moving the scan over text without an opening bracket. */
  lemma {:induction false} AdvancePlain(d: Digits, allowed: set<string>, w: string, k: nat, m: nat)
    requires k <= m <= |w| && Clear(d, w, k) && '[' !in w[k..m]
    ensures Clear(d, w, m)
    ensures Sanitize(d, allowed, w[..m]) == Sanitize(d, allowed, w[..k]) + w[k..m]
    decreases m - k
  {
    hide TokenLength;
    if k < m {
      assert w[k] == w[k..m][0] == w[k..][0];
      NoMatchWithoutOpen(d, w[k..]);
      Advance(d, allowed, w, k);
      assert w[k..m] == [w[k]] + w[k + 1..m];
      AdvancePlain(d, allowed, w, k + 1, m);
    }
  }

  /** The candidate up to the first `]` is a full match exactly when the pattern matches here. */
  lemma CandidateIsMatch(d: Digits, s: string, closing: nat)
    requires closing < |s| && s[closing] == ']' && ']' !in s[..closing]
    ensures TokenLength(d, s) == if IsToken(d, s[..closing + 1]) then closing + 1 else 0
  {
    MatchIsTheToken(d, s, closing + 1);
    var n := TokenLength(d, s);
    if n > 0 {
      TokenShape(d, s);
      assert forall i :: 0 <= i < closing ==> s[i] == s[..closing][i];
    }
  }

  /** The scan of `w` has come to `rest` and released `output` for the text before it, none of which
      could have been held back. */
  ghost predicate Scanned(d: Digits, allowed: set<string>, w: string, rest: string, output: string) {
    && |rest| <= |w|
    && var k := |w| - |rest|;
       && rest == w[k..] && Clear(d, w, k)
       && output == Sanitize(d, allowed, w[..k])
       && forall j :: 0 <= j < k ==> !Holdable(w[j..])
  }

  lemma ScanStart(d: Digits, allowed: set<string>, w: string)
    ensures Scanned(d, allowed, w, w, "")
  {
    assert w[..0] == "" && w[0..] == w;
  }

  lemma ScanPlain(d: Digits, allowed: set<string>, w: string, rest: string, n: nat, output: string)
    requires Scanned(d, allowed, w, rest, output)
    requires n <= |rest| && '[' !in rest[..n]
    ensures Scanned(d, allowed, w, rest[n..], output + rest[..n])
  {
    hide TokenLength;
    var k := |w| - |rest|;
    assert w[k..k + n] == rest[..n];
    AdvancePlain(d, allowed, w, k, k + n);
    forall j | 0 <= j < k + n ensures !Holdable(w[j..]) {
      if k <= j { assert w[j..][0] == rest[..n][j - k]; }
    }
  }

  lemma ScanBracket(d: Digits, allowed: set<string>, w: string, rest: string, output: string)
    requires Scanned(d, allowed, w, rest, output)
    requires rest != "" && rest[0] == '[' && TokenLength(d, rest) == 0 && !Holdable(rest)
    ensures Scanned(d, allowed, w, rest[1..], output + "[")
  {
    hide TokenLength;
    Advance(d, allowed, w, |w| - |rest|);
  }

  lemma ScanToken(d: Digits, allowed: set<string>, w: string, rest: string, output: string)
    requires Scanned(d, allowed, w, rest, output)
    requires TokenLength(d, rest) > 0
    ensures var n := TokenLength(d, rest);
            Scanned(d, allowed, w, rest[n..], if TokenId(d, rest) in allowed then output + rest[..n] else output)
  {
    hide TokenLength;
    var k, n := |w| - |rest|, TokenLength(d, rest);
    Advance(d, allowed, w, k);
    assert w[k..k + n] == rest[..n] && output + "" == output && w[k + n..] == rest[n..];
    assert w[k + n - 1] == ']' by { TokenShape(d, rest); }
    forall j | k <= j < k + n ensures !Holdable(w[j..]) {
      ClosedIsNotHoldable(w, j, k + n - 1);
    }
  }

  lemma ClosedIsNotHoldable(w: string, j: nat, i: nat)
    requires j <= i < |w| && w[i] == ']'
    ensures !Holdable(w[j..])
  {
    assert w[j..][i - j] == ']';
  }

  lemma ScanCandidate(d: Digits, allowed: set<string>, w: string, rest: string, closing: nat, output: string)
    requires Scanned(d, allowed, w, rest, output)
    requires closing < |rest| && rest[0] == '[' && rest[closing] == ']' && ']' !in rest[..closing]
    ensures var candidate := rest[..closing + 1];
            if IsToken(d, candidate) then
              Scanned(d, allowed, w, rest[closing + 1..],
                      if candidate[1..|candidate| - 1] in allowed then output + candidate else output)
            else Scanned(d, allowed, w, rest[1..], output + "[")
  {
    hide TokenLength, Scanned;
    var candidate := rest[..closing + 1];
    CandidateIsMatch(d, rest, closing);
    if IsToken(d, candidate) {
      assert TokenId(d, rest) == candidate[1..|candidate| - 1];
      ScanToken(d, allowed, w, rest, output);
    } else {
      ScanBracket(d, allowed, w, rest, output);
    }
  }

  lemma ScanFlush(d: Digits, allowed: set<string>, w: string, rest: string, output: string)
    requires Scanned(d, allowed, w, rest, output)
    requires |rest| > FLUSH_LIMIT && rest[0] == '[' && ']' !in rest
    ensures Scanned(d, allowed, w, rest[1..], output + "[")
  {
    NoMatchWithoutClose(d, rest);
    ScanBracket(d, allowed, w, rest, output);
  }

  lemma ScanDone(d: Digits, allowed: set<string>, w: string, rest: string, output: string)
    requires Scanned(d, allowed, w, rest, output) && Holdable(rest)
    ensures rest == w[HoldFrom(w)..] && output == Sanitize(d, allowed, w[..HoldFrom(w)])
  {
    HoldFromIsUnique(w, |w| - |rest|);
  }

  class CitationStreamFilter {
    const digits: Digits
    const allowed: set<string>
    var pending: string

    constructor (digits: Digits, allowed: set<string>)
      ensures this.digits == digits && this.allowed == allowed && pending == ""
    {
      this.digits, this.allowed, pending := digits, allowed, "";
    }

    /** Releases the sanitized text and keeps exactly the longest holdable suffix. */
    method Feed(chunk: string) returns (output: string)
      modifies this`pending
      ensures var w := old(pending) + chunk;
              && pending == w[HoldFrom(w)..]
              && output == Sanitize(digits, allowed, w[..HoldFrom(w)])
      ensures |pending| <= 32 && (pending != "" ==> pending[0] == '[' && ']' !in pending)
      ensures var w := old(pending) + chunk;
              forall j :: 0 <= j < |w| - |pending| && |w| - j <= 32 && w[j] == '[' ==> ']' in w[j..]
    {
      LongestHeld(pending + chunk);
      hide TokenLength, Scanned, Sanitize, HoldFrom, IsToken, Find;
      pending := pending + chunk;
      ghost var w := pending;
      output := "";
      ScanStart(digits, allowed, w);
      while pending != ""
        invariant Scanned(digits, allowed, w, pending, output)
        decreases |pending|
      {
        var opening := Find('[', pending);
        if opening == None {
          assert pending[..|pending|] == pending && pending[|pending|..] == "";
          ScanPlain(digits, allowed, w, pending, |pending|, output);
          output := output + pending;
          pending := "";
          break;
        }
        if opening.value > 0 {
          ScanPlain(digits, allowed, w, pending, opening.value, output);
          output := output + pending[..opening.value];
          pending := pending[opening.value..];
        }
        var closing := Find(']', pending);
        if closing == None {
          if |pending| > FLUSH_LIMIT {
            ScanFlush(digits, allowed, w, pending, output);
            output := output + "[";
            pending := pending[1..];
            continue;
          }
          break;
        }
        var candidate := pending[..closing.value + 1];
        ScanCandidate(digits, allowed, w, pending, closing.value, output);
        if IsToken(digits, candidate) {
          if candidate[1..|candidate| - 1] in allowed {
            output := output + candidate;
          }
          pending := pending[closing.value + 1..];
        } else {
          output := output + "[";
          pending := pending[1..];
        }
      }
      ScanDone(digits, allowed, w, pending, output);
    }

    method Finish() returns (remaining: string)
      modifies this`pending
      ensures remaining == old(pending) && pending == ""
    {
      remaining := pending;
      pending := "";
    }
  }

  // ----- whole streams

  function Concat(chunks: seq<string>): string {
    if chunks == [] then "" else chunks[0] + Concat(chunks[1..])
  }

  /** Everything a filter holding `held` releases while it is fed `chunks` and then finished. */
  function Streamed(d: Digits, allowed: set<string>, held: string, chunks: seq<string>): string
    decreases |chunks|
  {
    if chunks == [] then held
    else
      var w := held + chunks[0];
      Sanitize(d, allowed, w[..HoldFrom(w)]) + Streamed(d, allowed, w[HoldFrom(w)..], chunks[1..])
  }

  /** Every token too long for the filter to hold back is one it would keep anyway. */
  ghost predicate LongTokensKnown(d: Digits, allowed: set<string>, s: string) {
    forall i :: 0 <= i < |s| ==> HoldableOrKnown(d, allowed, s[i..])
  }

  predicate HoldableOrKnown(d: Digits, allowed: set<string>, s: string) {
    TokenLength(d, s) > FLUSH_LIMIT + 1 ==> TokenId(d, s) in allowed
  }

  /** Where the filter cuts the text, it cuts no foreign token. */
  lemma CutIsGoodSeam(d: Digits, allowed: set<string>, w: string, rest: string)
    requires LongTokensKnown(d, allowed, w + rest)
    ensures var k := HoldFrom(w);
            Sanitize(d, allowed, w + rest)
            == Sanitize(d, allowed, w[..k]) + Sanitize(d, allowed, w[k..] + rest)
  {
    hide TokenLength;
    var k := HoldFrom(w);
    var x, y := w[..k], w[k..] + rest;
    assert x + y == w + rest;
    if k < |w| {
      SeamBeforeBracket(d, allowed, x, y);
    } else {
      forall i | 0 <= i < |x| ensures KeptAcross(d, allowed, x[i..], y) {
        var s := x[i..] + y;
        assert s == (w + rest)[i..] && x[i..] == w[i..];
        assert HoldableOrKnown(d, allowed, (w + rest)[i..]);
        if TokenLength(d, s) > |x[i..]| {
          TokenShape(d, s);
          assert forall j :: 0 <= j < |x[i..]| ==> x[i..][j] == s[j];
        }
      }
      SanitizeSeam(d, allowed, x, y);
    }
  }

  lemma LongTokensKnownSuffix(d: Digits, allowed: set<string>, w: string, k: nat, rest: string)
    requires k <= |w| && LongTokensKnown(d, allowed, w + rest)
    ensures LongTokensKnown(d, allowed, w[k..] + rest)
  {
    hide HoldableOrKnown;
    var later := w[k..] + rest;
    forall i | 0 <= i < |later| ensures HoldableOrKnown(d, allowed, later[i..]) {
      assert later[i..] == (w + rest)[k + i..];
    }
  }

  lemma {:induction false} StreamAgrees(d: Digits, allowed: set<string>, held: string, chunks: seq<string>)
    requires Holdable(held)
    requires LongTokensKnown(d, allowed, held + Concat(chunks))
    ensures Streamed(d, allowed, held, chunks) == Sanitize(d, allowed, held + Concat(chunks))
    decreases |chunks|
  {
    hide TokenLength;
    if chunks == [] {
      assert held + Concat(chunks) == held;
      NothingToSanitize(d, allowed, held);
    } else {
      var w, rest := held + chunks[0], Concat(chunks[1..]);
      var k := HoldFrom(w);
      assert w + rest == held + Concat(chunks);
      CutIsGoodSeam(d, allowed, w, rest);
      LongTokensKnownSuffix(d, allowed, w, k, rest);
      StreamAgrees(d, allowed, w[k..], chunks[1..]);
    }
  }

  /** A whole token fits no held text, so a first chunk that ends late inside one is released. */
  lemma NothingHeldAfterLongOpening(a: string, t: string)
    requires |t| > FLUSH_LIMIT && t[0] == '[' && '[' !in t[1..]
    ensures HoldFrom(a + t) == |a + t|
  {
    var x := a + t;
    forall j | 0 <= j < |x| ensures !Holdable(x[j..]) {
      if j > |a| { assert x[j..][0] == t[1..][j - |a| - 1]; }
    }
    HoldFromIsUnique(x, |x|);
  }

  lemma TokenPieces(d: Digits, s: string, k: nat)
    requires 0 < k < TokenLength(d, s)
    ensures s[..k][0] == '[' && '[' !in s[..k][1..] && ']' !in s[..k]
    ensures '[' !in s[k..TokenLength(d, s)]
  {
    hide TokenLength;
    var n := TokenLength(d, s);
    TokenShape(d, s);
    assert forall j :: 0 <= j < k ==> s[..k][j] == s[j];
    assert forall j :: 0 <= j < k - 1 ==> s[..k][1..][j] == s[j + 1];
    assert forall j :: 0 <= j < n - k ==> s[k..n][j] == s[k + j];
  }

  /** Splitting inside an over-long foreign token, just past the limit, leaks it. */
  lemma LongTokenLeaks(d: Digits, allowed: set<string>, s: string, i: nat)
    requires i < |s| && !HoldableOrKnown(d, allowed, s[i..])
    ensures var cut := i + FLUSH_LIMIT + 1;
            && cut <= |s|
            && |Streamed(d, allowed, "", [s[..cut], s[cut..]])| > |Sanitize(d, allowed, s)|
  {
    hide TokenLength, Sanitize, HoldFrom;
    var cut := i + FLUSH_LIMIT + 1;
    var n := TokenLength(d, s[i..]);
    var a, t1, t2, b := s[..i], s[i..cut], s[cut..i + n], s[i + n..];
    assert t1 == s[i..][..FLUSH_LIMIT + 1] && t2 == s[i..][FLUSH_LIMIT + 1..n];
    TokenPieces(d, s[i..], FLUSH_LIMIT + 1);
    var x, y := s[..cut], s[cut..];
    assert x == a + t1 && y == t2 + b;
    TwoChunks(d, allowed, x, y) by { NothingHeldAfterLongOpening(a, t1); }
    var front, back := Sanitize(d, allowed, a), Sanitize(d, allowed, b);
    assert Sanitize(d, allowed, x) == front + t1 by { SeamBeforeOpenText(d, allowed, a, t1); }
    assert Sanitize(d, allowed, y) == t2 + back by { PlainFront(d, allowed, t2, b); }
    assert |Sanitize(d, allowed, s)| == |front| + |back| by { LongTokenSanitized(d, allowed, s, i); }
  }

  lemma TwoChunks(d: Digits, allowed: set<string>, x: string, y: string)
    requires HoldFrom(x) == |x|
    ensures Streamed(d, allowed, "", [x, y]) == Sanitize(d, allowed, x) + Sanitize(d, allowed, y)
  {
    hide TokenLength;
    OneChunk(d, allowed, y);
    assert "" + x == x && [x, y][1..] == [y] && x[|x|..] == "" && x[..|x|] == x;
  }

  lemma OneChunk(d: Digits, allowed: set<string>, y: string)
    ensures Streamed(d, allowed, "", [y]) == Sanitize(d, allowed, y)
  {
    var k := HoldFrom(y);
    assert "" + y == y && [y][1..] == [] && y == y[..k] + y[k..];
    SeamBeforeOpenText(d, allowed, y[..k], y[k..]);
  }

  lemma LongTokenSanitized(d: Digits, allowed: set<string>, s: string, i: nat)
    requires i < |s| && Foreign(d, allowed, s[i..])
    ensures Sanitize(d, allowed, s)
         == Sanitize(d, allowed, s[..i]) + Sanitize(d, allowed, s[i + TokenLength(d, s[i..])..])
  {
    hide TokenLength;
    var n := TokenLength(d, s[i..]);
    TokenShape(d, s[i..]);
    assert s == s[..i] + s[i..] && s[i..][n..] == s[i + n..];
    SeamBeforeBracket(d, allowed, s[..i], s[i..]);
  }

  /** The refinement, exactly: the stream agrees with the batch substitution however the answer is cut
      into chunks, if and only if every token longer than 33 characters names a supplied source. */
  lemma StreamRefinesBatch(d: Digits, allowed: set<string>, s: string)
    ensures (forall chunks :: Concat(chunks) == s ==> Streamed(d, allowed, "", chunks) == Sanitize(d, allowed, s))
       <==> LongTokensKnown(d, allowed, s)
    ensures LongTokensKnown(d, allowed, s)
       <==> forall i :: 0 <= i < |s| && TokenLength(d, s[i..]) > 33 ==> TokenId(d, s[i..]) in allowed
  {
    LongTokensMeans(d, allowed, s);
    hide TokenLength;
    if LongTokensKnown(d, allowed, s) {
      forall chunks | Concat(chunks) == s
        ensures Streamed(d, allowed, "", chunks) == Sanitize(d, allowed, s)
      {
        assert "" + s == s;
        StreamAgrees(d, allowed, "", chunks);
      }
    } else {
      var i: nat :| i < |s| && !HoldableOrKnown(d, allowed, s[i..]);
      LongTokenLeaks(d, allowed, s, i);
      ConcatPair(s, i + FLUSH_LIMIT + 1);
    }
  }

  lemma LongTokensMeans(d: Digits, allowed: set<string>, s: string)
    ensures LongTokensKnown(d, allowed, s)
       <==> forall i :: 0 <= i < |s| && TokenLength(d, s[i..]) > 33 ==> TokenId(d, s[i..]) in allowed
  {
    hide TokenLength;
    assert forall i :: 0 <= i < |s| ==>
             (HoldableOrKnown(d, allowed, s[i..])
              <==> (TokenLength(d, s[i..]) > 33 ==> TokenId(d, s[i..]) in allowed));
  }

  lemma ConcatPair(s: string, k: nat)
    requires k <= |s|
    ensures Concat([s[..k], s[k..]]) == s
  {
    var chunks := [s[..k], s[k..]];
    assert chunks[1..] == [s[k..]] && chunks[1..][1..] == [];
    assert Concat(chunks[1..]) == s[k..] + "";
  }

  // ----- supplied citations are never lost

  lemma {:induction false} CitedAcross(d: Digits, x: string, y: string)
    ensures CitedIds(d, x) <= CitedIds(d, x + y)
    ensures CitedIds(d, y) <= CitedIds(d, x + y)
    decreases |x|
  {
    hide TokenLength;
    if x == "" {
      assert x + y == y;
    } else {
      var s := x + y;
      assert s[1..] == x[1..] + y;
      CitedAcross(d, x[1..], y);
      CitedStep(d, x);
      CitedStep(d, s);
      MatchIsLocal(d, x, y);
      if TokenLength(d, x) > 0 {
        assert TokenId(d, x) == TokenId(d, s);
      }
    }
  }

  lemma {:induction false} ShortIdsAcross(d: Digits, x: string, y: string, id: string)
    requires id in CitedIds(d, x + y)
    requires forall i :: 0 <= i < |x| ==> NotSplit(d, x[i..], y, id)
    ensures id in CitedIds(d, x) + CitedIds(d, y)
    decreases |x|
  {
    hide TokenLength;
    if x == "" {
      assert x + y == y;
    } else {
      var s := x + y;
      assert s[1..] == x[1..] + y;
      CitedStep(d, s);
      CitedStep(d, x);
      assert x[0..] == x && NotSplit(d, x[0..], y, id);
      if TokenLength(d, s) > 0 && TokenId(d, s) == id {
        MatchIsLocal(d, x, y);
        assert TokenId(d, x) == TokenId(d, s);
      } else {
        forall i | 0 <= i < |x[1..]| ensures NotSplit(d, x[1..][i..], y, id) {
          assert x[1..][i..] == x[i + 1..];
        }
        ShortIdsAcross(d, x[1..], y, id);
      }
    }
  }

  ghost predicate NotSplit(d: Digits, x: string, y: string, id: string) {
    var n := TokenLength(d, x + y);
    n > |x| ==> TokenId(d, x + y) != id
  }

  lemma CutSplitsNoShortId(d: Digits, w: string, rest: string, i: nat, id: string)
    requires i < HoldFrom(w) && |id| + 1 <= FLUSH_LIMIT
    ensures NotSplit(d, w[..HoldFrom(w)][i..], w[HoldFrom(w)..] + rest, id)
  {
    hide TokenLength;
    var k := HoldFrom(w);
    var x, y := w[..k][i..], w[k..] + rest;
    var s := x + y;
    assert forall j :: 0 <= j < |x| ==> x[j] == s[j];
    assert forall j :: 0 <= j < |y| ==> s[|x| + j] == y[j];
    if k < |w| {
      assert w[k..][0] == y[0] == s[|x|];
    } else {
      assert w[i..] == x && !Holdable(w[i..]);
    }
    if TokenLength(d, s) > |x| {
      TokenShape(d, s);
    }
  }

  /** With no bound on the text at all: an id the caller supplied, of at most 31 characters (`c1` to `c5`
      have two), is cited in the stream whenever the raw answer cites it. */
  lemma {:induction false} SuppliedCitationsSurvive(d: Digits, allowed: set<string>, held: string,
                                                    chunks: seq<string>, id: string)
    requires id in allowed && |id| + 1 <= FLUSH_LIMIT
    requires id in CitedIds(d, held + Concat(chunks))
    ensures id in CitedIds(d, Streamed(d, allowed, held, chunks))
    decreases |chunks|
  {
    hide TokenLength;
    if chunks == [] {
      assert held + Concat(chunks) == held;
    } else {
      var w, rest := held + chunks[0], Concat(chunks[1..]);
      var k := HoldFrom(w);
      var x, y := w[..k], w[k..] + rest;
      assert x + y == held + Concat(chunks);
      forall i | 0 <= i < |x| ensures NotSplit(d, x[i..], y, id) {
        CutSplitsNoShortId(d, w, rest, i, id);
      }
      ShortIdsAcross(d, x, y, id);
      var front, back := Sanitize(d, allowed, x), Streamed(d, allowed, w[k..], chunks[1..]);
      CitedAfterSanitizing(d, allowed, x);
      if id in CitedIds(d, y) {
        SuppliedCitationsSurvive(d, allowed, w[k..], chunks[1..], id);
      }
      CitedAcross(d, front, back);
    }
  }
}
