/** Citation tokens such as `[c3]` in a generated answer: finding them, removing the ones no source
    backs, and what the removal does to the set of citations a reader sees. */
module Citations {
  import opened Wrappers

  /** The characters `\d` accepts. Python's class is wider than 0-9, so it stays a parameter; all the
      proofs need is that a bracket is never a digit. */
  type Digits = s: set<char> | '[' !in s && ']' !in s witness {}

  /** `re.fullmatch(r"\[c\d+\]", t)`. */
  predicate IsToken(d: Digits, t: string) {
    && |t| >= 4
    && t[0] == '[' && t[1] == 'c' && t[|t| - 1] == ']'
    && forall i :: 2 <= i < |t| - 1 ==> t[i] in d
  }

  function DigitRun(d: Digits, s: string): (n: nat)
    ensures n <= |s|
  {
    if s != "" && s[0] in d then 1 + DigitRun(d, s[1..]) else 0
  }

  lemma {:induction false} DigitRunIsMaximal(d: Digits, s: string)
    ensures var n := DigitRun(d, s);
            (forall i :: 0 <= i < n ==> s[i] in d) && (n < |s| ==> s[n] !in d)
  {
    if s != "" && s[0] in d {
      DigitRunIsMaximal(d, s[1..]);
      var n := DigitRun(d, s);
      forall i | 0 <= i < n ensures s[i] in d {
        assert i > 0 ==> s[i] == s[1..][i - 1];
      }
    }
  }

  /** Length of the match of `\[(c\d+)\]` at the front of `s`, or 0 when there is none. */
  function TokenLength(d: Digits, s: string): (n: nat)
    ensures n <= |s|
    ensures n > 0 ==> n >= 4
  {
    if |s| >= 2 && s[0] == '[' && s[1] == 'c' then
      var k := DigitRun(d, s[2..]);
      if k > 0 && 2 + k < |s| && s[2 + k] == ']' then k + 3 else 0
    else 0
  }

  /** The greedy match is the only prefix the pattern accepts. */
  lemma MatchIsTheToken(d: Digits, s: string, n: nat)
    requires 0 < n <= |s|
    ensures TokenLength(d, s) == n <==> IsToken(d, s[..n])
  {
    if n >= 2 { DigitRunIsMaximal(d, s[2..]); }
    if TokenLength(d, s) == n {
      forall i | 2 <= i < n - 1 ensures s[..n][i] in d {
        assert s[..n][i] == s[2..][i - 2];
      }
    }
    if IsToken(d, s[..n]) {
      var k := DigitRun(d, s[2..]);
      assert forall i :: 2 <= i < n - 1 ==> s[i] == s[..n][i];
      assert s[n - 1] == s[..n][n - 1];
      assert forall i :: 0 <= i < |s| - 2 ==> s[2..][i] == s[2 + i];
    }
  }

  /** What follows a token does not change the match. */
  lemma MatchIsLocal(d: Digits, x: string, y: string)
    ensures TokenLength(d, x) > 0 ==> TokenLength(d, x + y) == TokenLength(d, x)
    ensures TokenLength(d, x + y) <= |x| ==> TokenLength(d, x) == TokenLength(d, x + y)
  {
    var n := TokenLength(d, x);
    if n > 0 {
      MatchIsTheToken(d, x, n);
      assert (x + y)[..n] == x[..n];
      MatchIsTheToken(d, x + y, n);
    }
    var m := TokenLength(d, x + y);
    if 0 < m <= |x| {
      MatchIsTheToken(d, x + y, m);
      assert (x + y)[..m] == x[..m];
      MatchIsTheToken(d, x, m);
    }
  }

  /** Brackets stand only at the two ends of a token. */
  lemma TokenShape(d: Digits, s: string)
    requires TokenLength(d, s) > 0
    ensures var n := TokenLength(d, s);
            && s[0] == '[' && s[n - 1] == ']'
            && (forall i :: 0 < i < n - 1 ==> s[i] != '[' && s[i] != ']')
  {
    var n := TokenLength(d, s);
    MatchIsTheToken(d, s, n);
    forall i | 0 < i < n - 1 ensures s[i] != '[' && s[i] != ']' {
      assert s[i] == s[..n][i];
    }
  }

  function TokenId(d: Digits, s: string): string
    requires TokenLength(d, s) > 0
  {
    s[1..TokenLength(d, s) - 1]
  }

  predicate Foreign(d: Digits, allowed: set<string>, s: string) {
    TokenLength(d, s) > 0 && TokenId(d, s) !in allowed
  }

  /** `sanitize_citations`: a left-to-right substitution that drops every token outside `allowed`. */
  function Sanitize(d: Digits, allowed: set<string>, s: string): string
    decreases |s|
  {
    if s == "" then ""
    else
      var n := TokenLength(d, s);
      if n == 0 then [s[0]] + Sanitize(d, allowed, s[1..])
      else (if TokenId(d, s) in allowed then s[..n] else "") + Sanitize(d, allowed, s[n..])
  }

  /** `set(re.findall(r"\[(c\d+)\]", s))`. */
  function CitedIds(d: Digits, s: string): set<string>
    decreases |s|
  {
    if s == "" then {}
    else
      var n := TokenLength(d, s);
      if n == 0 then CitedIds(d, s[1..]) else {TokenId(d, s)} + CitedIds(d, s[n..])
  }

  // ----- plain stretches and seams

  lemma {:induction false} PlainFront(d: Digits, allowed: set<string>, a: string, b: string)
    requires '[' !in a
    ensures Sanitize(d, allowed, a + b) == a + Sanitize(d, allowed, b)
    ensures CitedIds(d, a + b) == CitedIds(d, b)
  {
    if a == "" {
      assert a + b == b;
    } else {
      assert (a + b)[0] == a[0];
      assert (a + b)[1..] == a[1..] + b;
      PlainFront(d, allowed, a[1..], b);
      assert a == [a[0]] + a[1..];
    }
  }

  lemma NoMatchWithoutClose(d: Digits, s: string)
    requires ']' !in s
    ensures TokenLength(d, s) == 0
  {
    if TokenLength(d, s) > 0 {
      TokenShape(d, s);
    }
  }

  lemma NoMatchWithoutOpen(d: Digits, s: string)
    requires s == "" || s[0] != '['
    ensures TokenLength(d, s) == 0
  {
  }

  lemma {:induction false} NothingToSanitize(d: Digits, allowed: set<string>, s: string)
    requires ']' !in s
    ensures Sanitize(d, allowed, s) == s
  {
    if s != "" {
      NoMatchWithoutClose(d, s);
      NothingToSanitize(d, allowed, s[1..]);
    }
  }

  /** Every token of `x + y` that straddles the seam is one `Sanitize` keeps. */
  ghost predicate GoodSeam(d: Digits, allowed: set<string>, x: string, y: string) {
    forall i :: 0 <= i < |x| ==> KeptAcross(d, allowed, x[i..], y)
  }

  ghost predicate KeptAcross(d: Digits, allowed: set<string>, x: string, y: string) {
    var n := TokenLength(d, x + y);
    n > |x| ==> TokenId(d, x + y) in allowed
  }

  /** Sanitizing two halves separately is sanitizing the whole, when the seam cuts no foreign token. */
  lemma {:induction false} SanitizeSeam(d: Digits, allowed: set<string>, x: string, y: string)
    requires GoodSeam(d, allowed, x, y)
    ensures Sanitize(d, allowed, x + y) == Sanitize(d, allowed, x) + Sanitize(d, allowed, y)
    decreases |x|
  {
    var s := x + y;
    if x == "" {
      assert s == y;
    } else {
      assert x[0..] == x;
      assert KeptAcross(d, allowed, x[0..], y);
      var n := TokenLength(d, s);
      MatchIsLocal(d, x, y);
      var step := if n == 0 then 1 else n;
      if n <= |x| {
        assert s[step..] == x[step..] + y;
        assert s[..step] == x[..step];
        if n > 0 { assert TokenId(d, s) == TokenId(d, x); }
        forall i | 0 <= i < |x[step..]| ensures KeptAcross(d, allowed, x[step..][i..], y) {
          assert x[step..][i..] == x[step + i..];
        }
        SanitizeSeam(d, allowed, x[step..], y);
        var kept := if n == 0 then [s[0]] else if TokenId(d, s) in allowed then s[..n] else "";
        assert Sanitize(d, allowed, s) == kept + Sanitize(d, allowed, x[step..] + y);
        assert Sanitize(d, allowed, x) == kept + Sanitize(d, allowed, x[step..]);
        Associative(kept, Sanitize(d, allowed, x[step..]), Sanitize(d, allowed, y));
      } else {
        SeamInsideKeptToken(d, allowed, x, y);
      }
    }
  }

  lemma SeamInsideKeptToken(d: Digits, allowed: set<string>, x: string, y: string)
    requires x != "" && TokenLength(d, x + y) > |x| && TokenId(d, x + y) in allowed
    ensures Sanitize(d, allowed, x + y) == Sanitize(d, allowed, x) + Sanitize(d, allowed, y)
  {
    var s := x + y;
    var n := TokenLength(d, s);
    var tail, rest := y[..n - |x|], y[n - |x|..];
    assert s[..n] == x + tail && s[n..] == rest && y == tail + rest;
    assert ']' !in x && '[' !in tail by {
      TokenShape(d, s);
      assert forall i :: 0 <= i < |x| ==> x[i] == s[i];
      assert forall i :: 0 <= i < |tail| ==> tail[i] == s[|x| + i];
    }
    var kept := Sanitize(d, allowed, rest);
    assert Sanitize(d, allowed, s) == s[..n] + kept;
    assert Sanitize(d, allowed, x) == x by { NothingToSanitize(d, allowed, x); }
    assert Sanitize(d, allowed, y) == tail + kept by { PlainFront(d, allowed, tail, rest); }
    Associative(x, tail, kept);
  }

  lemma DropSlice(s: string, k: nat, i: nat, j: nat)
    requires i <= j && k + j <= |s|
    ensures s[k..][i..j] == s[k + i..k + j]
  {
  }

  lemma Associative(a: string, b: string, c: string)
    ensures a + (b + c) == (a + b) + c
  {
  }

  lemma SeamBeforeBracket(d: Digits, allowed: set<string>, x: string, y: string)
    requires y != "" && y[0] == '['
    ensures Sanitize(d, allowed, x + y) == Sanitize(d, allowed, x) + Sanitize(d, allowed, y)
  {
    forall i | 0 <= i < |x| ensures KeptAcross(d, allowed, x[i..], y) {
      assert (x[i..] + y)[|x[i..]|] == '[';
      if TokenLength(d, x[i..] + y) > |x[i..]| {
        TokenShape(d, x[i..] + y);
      }
    }
    SanitizeSeam(d, allowed, x, y);
  }

  lemma SeamBeforeOpenText(d: Digits, allowed: set<string>, x: string, y: string)
    requires ']' !in y
    ensures Sanitize(d, allowed, x + y) == Sanitize(d, allowed, x) + y
  {
    forall i | 0 <= i < |x| ensures KeptAcross(d, allowed, x[i..], y) {
      var w := x[i..] + y;
      assert forall j :: |x[i..]| <= j < |w| ==> w[j] == y[j - |x[i..]|];
      if TokenLength(d, w) > |x[i..]| {
        TokenShape(d, w);
      }
    }
    SanitizeSeam(d, allowed, x, y);
    NothingToSanitize(d, allowed, y);
  }

  // ----- what a reader sees cited after sanitizing

  /** Follows the inside of a token through `s`: state 0 awaits `c`, 1 a first digit, 2 a digit or the
      closing bracket. With `skip`, tokens that sanitizing will remove are stepped over. */
  function TokenBody(d: Digits, allowed: set<string>, s: string, state: nat, id: string, skip: bool): Option<string>
    decreases |s|
  {
    if s == "" then None
    else if skip && Foreign(d, allowed, s) then
      TokenBody(d, allowed, s[TokenLength(d, s)..], state, id, skip)
    else if state == 0 then
      if s[0] == 'c' then TokenBody(d, allowed, s[1..], 1, "c", skip) else None
    else if s[0] in d then TokenBody(d, allowed, s[1..], 2, id + [s[0]], skip)
    else if state == 2 && s[0] == ']' then Some(id)
    else None
  }

  /** Ids of tokens that are not there in `s` but appear once the foreign tokens written inside them are
      taken out, as in `[c[c99]8]`. */
  function InterruptedIds(d: Digits, allowed: set<string>, s: string): set<string>
    decreases |s|
  {
    if s == "" then {}
    else
      var n := TokenLength(d, s);
      if n > 0 then InterruptedIds(d, allowed, s[n..])
      else
        (if s[0] == '[' then
           match TokenBody(d, allowed, s[1..], 0, "", true)
           case None => {}
           case Some(id) => {id}
         else {})
        + InterruptedIds(d, allowed, s[1..])
  }

  lemma {:induction false} BodyAfterSanitizing(d: Digits, allowed: set<string>, s: string, state: nat, id: string)
    ensures TokenBody(d, allowed, s, state, id, true)
         == TokenBody(d, allowed, Sanitize(d, allowed, s), state, id, false)
    decreases |s|
  {
    if s != "" {
      var n := TokenLength(d, s);
      if Foreign(d, allowed, s) {
        BodyAfterSanitizing(d, allowed, s[n..], state, id);
        assert Sanitize(d, allowed, s) == Sanitize(d, allowed, s[n..]);
      } else if n > 0 {
        TokenShape(d, s);
        assert Sanitize(d, allowed, s)[0] == '[';
      } else {
        var t := Sanitize(d, allowed, s);
        assert t[0] == s[0] && t[1..] == Sanitize(d, allowed, s[1..]);
        if state == 0 && s[0] == 'c' {
          BodyAfterSanitizing(d, allowed, s[1..], 1, "c");
        } else if state != 0 && s[0] in d {
          BodyAfterSanitizing(d, allowed, s[1..], 2, id + [s[0]]);
        }
      }
    }
  }

  lemma {:induction false} BodyDigits(d: Digits, allowed: set<string>, s: string, state: nat, id: string)
    requires state > 0
    ensures var k := DigitRun(d, s);
            TokenBody(d, allowed, s, state, id, false)
            == if (state == 2 || k > 0) && k < |s| && s[k] == ']' then Some(id + s[..k]) else None
    decreases |s|
  {
    var k := DigitRun(d, s);
    if s != "" && s[0] in d {
      BodyDigits(d, allowed, s[1..], 2, id + [s[0]]);
      assert id + [s[0]] + s[1..][..k - 1] == id + s[..k];
    } else {
      assert id + s[..k] == id;
    }
  }

  /** The state machine recognises exactly the regular expression. */
  lemma BodyIsMatch(d: Digits, allowed: set<string>, s: string)
    requires s != "" && s[0] == '['
    ensures TokenBody(d, allowed, s[1..], 0, "", false)
         == if TokenLength(d, s) > 0 then Some(TokenId(d, s)) else None
  {
    if |s| > 1 && s[1] == 'c' {
      assert s[1..][1..] == s[2..];
      BodyDigits(d, allowed, s[2..], 1, "c");
      var k := DigitRun(d, s[2..]);
      if TokenLength(d, s) > 0 {
        assert TokenId(d, s) == "c" + s[2..][..k];
      }
    }
  }

  /** Reading past the front of a token finds nothing more of it. */
  lemma CitedStep(d: Digits, s: string)
    requires s != ""
    ensures CitedIds(d, s)
         == (if TokenLength(d, s) > 0 then {TokenId(d, s)} else {}) + CitedIds(d, s[1..])
  {
    var n := TokenLength(d, s);
    if n > 0 {
      TokenShape(d, s);
      var inner := s[1..n];
      assert forall i :: 0 <= i < |inner| ==> inner[i] == s[i + 1];
      assert s[1..] == inner + s[n..];
      PlainFront(d, {}, inner, s[n..]);
    }
  }

  /** Exactly which citations survive: the supplied ones, and the ones uncovered by removing a foreign
      token from inside them. */
  lemma {:induction false} CitedAfterSanitizing(d: Digits, allowed: set<string>, s: string)
    ensures CitedIds(d, Sanitize(d, allowed, s))
         == CitedIds(d, s) * allowed + InterruptedIds(d, allowed, s)
    decreases |s|
  {
    if s != "" {
      var n := TokenLength(d, s);
      var t := Sanitize(d, allowed, s);
      if n > 0 {
        CitedAfterSanitizing(d, allowed, s[n..]);
        var rest := Sanitize(d, allowed, s[n..]);
        if TokenId(d, s) in allowed {
          SameToken(d, s, rest);
          assert t == s[..n] + rest;
        } else {
          assert t == rest;
        }
      } else {
        CitedAfterSanitizing(d, allowed, s[1..]);
        assert t[0] == s[0] && t[1..] == Sanitize(d, allowed, s[1..]);
        CitedStep(d, t);
        CitedStep(d, s);
        if s[0] == '[' {
          BodyAfterSanitizing(d, allowed, s[1..], 0, "");
          BodyIsMatch(d, allowed, t);
        } else if TokenLength(d, t) > 0 {
          TokenShape(d, t);
        }
      }
    }
  }

  /** A token is read alike before any text. */
  lemma SameToken(d: Digits, s: string, rest: string)
    requires TokenLength(d, s) > 0
    ensures var n := TokenLength(d, s);
            var t := s[..n] + rest;
            TokenLength(d, t) == n && TokenId(d, t) == TokenId(d, s) && t[n..] == rest
  {
    hide TokenLength;
    var n := TokenLength(d, s);
    var x := s[..n];
    assert s == x + s[n..];
    MatchIsLocal(d, x, s[n..]);
    MatchIsLocal(d, x, rest);
    assert TokenLength(d, x) == n == TokenLength(d, x + rest);
    assert (x + rest)[..n] == x && (x + rest)[n..] == rest;
    assert (x + rest)[1..n - 1] == x[1..n - 1] == s[1..n - 1];
  }

  lemma {:induction false} StableExactlyWhenAllKnown(d: Digits, allowed: set<string>, s: string)
    ensures Sanitize(d, allowed, s) == s <==> CitedIds(d, s) <= allowed
    ensures |Sanitize(d, allowed, s)| <= |s|
    decreases |s|
  {
    if s != "" {
      var n := TokenLength(d, s);
      var t := Sanitize(d, allowed, s);
      if n == 0 {
        StableExactlyWhenAllKnown(d, allowed, s[1..]);
        assert t[1..] == Sanitize(d, allowed, s[1..]);
        assert s == [s[0]] + s[1..];
      } else {
        StableExactlyWhenAllKnown(d, allowed, s[n..]);
        assert s == s[..n] + s[n..];
        if TokenId(d, s) in allowed {
          assert t[n..] == Sanitize(d, allowed, s[n..]);
        }
      }
    }
  }

  /** Sanitizing leaves no unknown citation, and is idempotent, exactly when nothing unknown is
      interrupted; it leaves the validated citations alone exactly when nothing new is uncovered. */
  lemma SanitizeExactness(d: Digits, allowed: set<string>, s: string)
    ensures var t := Sanitize(d, allowed, s);
            && CitedIds(d, s) * allowed <= CitedIds(d, t)
            && (CitedIds(d, t) <= allowed <==> InterruptedIds(d, allowed, s) <= allowed)
            && (Sanitize(d, allowed, t) == t <==> InterruptedIds(d, allowed, s) <= allowed)
            && (CitedIds(d, t) * allowed == CitedIds(d, s) * allowed
                <==> InterruptedIds(d, allowed, s) * allowed <= CitedIds(d, s))
  {
    var t := Sanitize(d, allowed, s);
    CitedAfterSanitizing(d, allowed, s);
    StableExactlyWhenAllKnown(d, allowed, t);
    var before, after, uncovered := CitedIds(d, s), CitedIds(d, t), InterruptedIds(d, allowed, s);
    assert after * allowed == before * allowed + uncovered * allowed;
    if after * allowed == before * allowed {
      assert uncovered * allowed <= before * allowed;
    }
  }

  /** No `[` between a `[` and the next `]`. */
  predicate Flat(s: string) {
    forall i, j :: 0 <= i < j < |s| && s[i] == '[' && s[j] == '[' ==> ']' in s[i..j]
  }

  lemma {:induction false} BodyNeedsNesting(d: Digits, allowed: set<string>, s: string, state: nat, id: string)
    requires TokenBody(d, allowed, s, state, id, true).Some?
    requires forall j :: 0 <= j < |s| && s[j] == '[' ==> ']' in s[..j]
    ensures TokenBody(d, allowed, s, state, id, true) == TokenBody(d, allowed, s, state, id, false)
    decreases |s|
  {
    assert s[..0] == "";
    if TokenLength(d, s) > 0 {
      TokenShape(d, s);
    } else if state == 0 || s[0] in d {
      forall j | 0 <= j < |s[1..]| && s[1..][j] == '[' ensures ']' in s[1..][..j] {
        assert ']' in s[..j + 1];
        assert s[..j + 1] == [s[0]] + s[1..][..j];
      }
      BodyNeedsNesting(d, allowed, s[1..], if state == 0 then 1 else 2, if state == 0 then "c" else id + [s[0]]);
    }
  }

  lemma {:induction false} FlatTextInterruptsNothing(d: Digits, allowed: set<string>, s: string)
    requires Flat(s)
    ensures InterruptedIds(d, allowed, s) == {}
    decreases |s|
  {
    if s != "" {
      var n := TokenLength(d, s);
      var step := if n > 0 then n else 1;
      forall i, j | 0 <= i < j < |s[step..]| && s[step..][i] == '[' && s[step..][j] == '['
        ensures ']' in s[step..][i..j]
      {
        assert s[step + i] == '[' && s[step + j] == '[';
        DropSlice(s, step, i, j);
      }
      FlatTextInterruptsNothing(d, allowed, s[step..]);
      if n == 0 && s[0] == '[' && TokenBody(d, allowed, s[1..], 0, "", true).Some? {
        forall j | 0 <= j < |s[1..]| && s[1..][j] == '[' ensures ']' in s[1..][..j] {
          assert s[j + 1] == s[1..][j] == '[';
          assert ']' in s[0..j + 1];
          assert s[0..j + 1] == [s[0]] + s[1..][..j];
        }
        BodyNeedsNesting(d, allowed, s[1..], 0, "");
        BodyIsMatch(d, allowed, s);
      }
    }
  }

  /** On flat text sanitizing is idempotent, leaves nothing unknown and changes no validated citation. */
  lemma SanitizeFlatText(d: Digits, allowed: set<string>, s: string)
    requires Flat(s)
    ensures var t := Sanitize(d, allowed, s);
            && Sanitize(d, allowed, t) == t
            && CitedIds(d, t) == CitedIds(d, s) * allowed
  {
    FlatTextInterruptsNothing(d, allowed, s);
    CitedAfterSanitizing(d, allowed, s);
    SanitizeExactness(d, allowed, s);
  }

  /** Nested brackets really do uncover an unknown citation. */
  lemma NestingUncoversUnknown(d: Digits)
    requires '8' in d && '9' in d
    ensures "c8" in CitedIds(d, Sanitize(d, {"c1"}, "[c" + ("[c99]" + "8]")))
  {
    assert IsToken(d, "[c99]") && "[c99]"[1..4] == "c99";
    SanitizeNested(d, "[c", "[c99]", "8]");
    var token := "[c" + "8]";
    assert IsToken(d, token) && token[1..3] == "c8";
    CitesItself(d, token);
  }

  lemma CitesItself(d: Digits, token: string)
    requires IsToken(d, token)
    ensures token[1..|token| - 1] in CitedIds(d, token)
  {
    assert token[..|token|] == token;
    MatchIsTheToken(d, token, |token|);
  }

  /** A foreign token between text that cannot open or close a token just disappears. */
  lemma SanitizeNested(d: Digits, a: string, token: string, b: string)
    requires ']' !in a && '[' !in b
    requires IsToken(d, token) && token[1..|token| - 1] != "c1"
    ensures Sanitize(d, {"c1"}, a + (token + b)) == a + b
  {
    var allowed := {"c1"};
    var w := token + b;
    assert w[..|token|] == token && w[|token|..] == b;
    MatchIsTheToken(d, w, |token|);
    assert TokenId(d, w) == token[1..|token| - 1];
    assert b + "" == b;
    PlainFront(d, allowed, b, "");
    SeamBeforeBracket(d, allowed, a, w);
    NothingToSanitize(d, allowed, a);
  }
}
