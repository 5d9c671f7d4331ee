/**
 * Greedy verification of draft tokens. The target model is any deterministic map from cached cells and an input token
 * to the token's own cell, and from cells to the next token.
 */
module Lossless {
  import opened Wrappers

  type Token = int

  // ---- Acceptance ----

  /** How many draft tokens agree with the target before the first that does not. */
  function Matched(draft: seq<Token>, posterior: seq<Token>): (n: nat)
    ensures n <= |draft| && n <= |posterior| && draft[..n] == posterior[..n]
    ensures n < |draft| && n < |posterior| ==> draft[n] != posterior[n]
  {
    if draft == [] || posterior == [] || draft[0] != posterior[0] then 0
    else
      assert draft == [draft[0]] + draft[1..] && posterior == [posterior[0]] + posterior[1..];
      1 + Matched(draft[1..], posterior[1..])
  }

  function AtMost(s: seq<Token>, limit: Option<int>): (r: seq<Token>)
    requires limit.Some? ==> limit.value >= 0
    ensures r <= s && (limit.Some? ==> |r| <= limit.value)
  {
    if limit.Some? && limit.value < |s| then s[..limit.value] else s
  }

  /** The sequence through its first stop token. */
  function ThroughStop(s: seq<Token>, stops: seq<Token>): (r: seq<Token>)
    ensures r <= s && (s != [] ==> r != [])
  {
    if s == [] then []
    else if s[0] in stops then [s[0]]
    else
      var rest := ThroughStop(s[1..], stops);
      assert s == [s[0]] + s[1..];
      [s[0]] + rest
  }

  lemma {:induction false} ThroughStopCuts(s: seq<Token>, stops: seq<Token>)
    ensures var r := ThroughStop(s, stops);
            (forall i | 0 <= i < |r| - 1 :: r[i] !in stops) && (|r| < |s| ==> r != [] && r[|r| - 1] in stops)
  {
    if s != [] && s[0] !in stops {
      ThroughStopCuts(s[1..], stops);
    }
  }

  lemma {:induction false} ThroughStopIs(s: seq<Token>, stops: seq<Token>, n: nat)
    requires n <= |s| && (forall i | 0 <= i < n - 1 :: s[i] !in stops) && (s != [] ==> n > 0)
    requires n < |s| ==> s[n - 1] in stops
    ensures ThroughStop(s, stops) == s[..n]
  {
    if s != [] {
      assert s[..n] == [s[0]] + s[1..][..n - 1];
      if n > 1 {
        ThroughStopIs(s[1..], stops, n - 1);
      } else if s[0] !in stops {
        assert s[1..] == [];
      }
    }
  }

  /** What a verification appends, and how many of its tokens are draft tokens. */
  datatype Acceptance = Acceptance(tokens: seq<Token>, drafts: nat)

  function Accepted(draft: seq<Token>, posterior: seq<Token>, limit: Option<int>, stops: seq<Token>): Acceptance
    requires |posterior| > |draft| && (limit.Some? ==> limit.value >= 0)
  {
    var n := Matched(draft, posterior);
    var tokens := ThroughStop(AtMost(posterior[..n + 1], limit), stops);
    Acceptance(tokens, if n < |tokens| then n else |tokens|)
  }

  /** The agreement loop. */
  method CountMatches(draft: seq<Token>, posterior: seq<Token>) returns (n: nat)
    requires |posterior| > |draft|
    ensures n == Matched(draft, posterior)
  {
    n := 0;
    while n < |draft| && posterior[n] == draft[n]
      invariant n <= |draft| && draft[..n] == posterior[..n]
    {
      n := n + 1;
    }
    MatchedIs(draft, posterior, n);
  }

  /** The stop loop. */
  method CutAtStop(s: seq<Token>, stops: seq<Token>) returns (r: seq<Token>)
    ensures r == ThroughStop(s, stops)
  {
    for i := 0 to |s|
      invariant forall j | 0 <= j < i :: s[j] !in stops
    {
      if s[i] in stops {
        ThroughStopIs(s, stops, i + 1);
        return s[..i + 1];
      }
    }
    ThroughStopIs(s, stops, |s|);
    r := s;
  }

  /** compute_greedy_acceptance. It fails on a negative limit, too few target tokens, or a negative stop token. */
  method ComputeGreedyAcceptance(draft: seq<Token>, posterior: seq<Token>, limit: Option<int>, stops: seq<Token>)
    returns (r: Result<Acceptance>)
    ensures r.Ok? <==> (limit.Some? ==> limit.value >= 0) && |posterior| > |draft| && forall s | s in stops :: s >= 0
    ensures r.Ok? ==> r.value == Accepted(draft, posterior, limit, stops)
  {
    if limit.Some? && limit.value < 0 { return Err("remaining_output_len must be non-negative"); }
    if |posterior| < |draft| + 1 { return Err("posterior_token_ids must contain K+1 tokens for K draft tokens"); }
    var accepted := CountMatches(draft, posterior);
    var tokens := draft[..accepted] + [posterior[accepted]];
    assert tokens == posterior[..accepted + 1];
    if limit.Some? && limit.value < |tokens| { tokens := tokens[..limit.value]; }
    if exists s | s in stops :: s < 0 { return Err("stop_token_ids must be non-negative"); }
    tokens := CutAtStop(tokens, stops);
    r := Ok(Acceptance(tokens, if accepted < |tokens| then accepted else |tokens|));
  }

  lemma {:induction false} MatchedIs(draft: seq<Token>, posterior: seq<Token>, n: nat)
    requires n <= |draft| && n < |posterior| && draft[..n] == posterior[..n]
    requires n < |draft| ==> draft[n] != posterior[n]
    ensures Matched(draft, posterior) == n
  {
    if n > 0 {
      assert draft[0] == draft[..n][0] && posterior[0] == posterior[..n][0];
      assert draft[1..][..n - 1] == draft[..n][1..] && posterior[1..][..n - 1] == posterior[..n][1..];
      MatchedIs(draft[1..], posterior[1..], n - 1);
    }
  }

  // ---- Plain decoding ----

  /** The token that the target puts after a history. */
  type Next = seq<Token> -> Token

  /** Request.is_finished. */
  predicate Finished(output: seq<Token>, length: nat, stops: seq<Token>) {
    |output| >= length || (output != [] && output[|output| - 1] in stops)
  }

  /** Plain greedy decoding: the next tokens after a history, up to a budget and through the first stop token. */
  function Continue(next: Next, history: seq<Token>, budget: nat, stops: seq<Token>): (r: seq<Token>)
    ensures |r| <= budget && (budget > 0 ==> r != [])
    ensures |r| < budget ==> r[|r| - 1] in stops
    decreases budget
  {
    if budget == 0 then []
    else
      var t := next(history);
      if t in stops then [t] else [t] + Continue(next, history + [t], budget - 1, stops)
  }

  /** Every token of plain decoding is what the target puts after all before it, and only the last may be a stop token. */
  lemma {:induction false} ContinueIsGreedy(next: Next, history: seq<Token>, budget: nat, stops: seq<Token>, i: nat)
    requires i < |Continue(next, history, budget, stops)|
    ensures var r := Continue(next, history, budget, stops);
            r[i] == next(history + r[..i]) && (i + 1 < |r| ==> r[i] !in stops)
    decreases budget
  {
    var r, t := Continue(next, history, budget, stops), next(history);
    if i == 0 {
      assert history + r[..0] == history;
    } else {
      var rest := Continue(next, history + [t], budget - 1, stops);
      ContinueIsGreedy(next, history + [t], budget - 1, stops, i - 1);
      assert history + [t] + rest[..i - 1] == history + r[..i];
    }
  }

  /** The whole output that plain decoding reaches from an output so far. */
  function Decode(next: Next, prompt: seq<Token>, output: seq<Token>, length: nat, stops: seq<Token>): (r: seq<Token>)
    ensures output <= r && Finished(r, length, stops)
  {
    if Finished(output, length, stops) then output
    else
      var rest := Continue(next, prompt + output, length - |output|, stops);
      assert (output + rest)[|output + rest| - 1] == rest[|rest| - 1];
      output + rest
  }

  /** Plain decoding starts with the tokens, and goes on from there unless they end it. */
  ghost predicate Passes(next: Next, history: seq<Token>, budget: nat, stops: seq<Token>, tokens: seq<Token>) {
    && 0 < |tokens| <= budget
    && Continue(next, history, budget, stops) ==
       tokens + (if |tokens| == budget || tokens[|tokens| - 1] in stops then []
                 else Continue(next, history + tokens, budget - |tokens|, stops))
  }

  lemma DecodePasses(next: Next, prompt: seq<Token>, output: seq<Token>, length: nat, stops: seq<Token>, tokens: seq<Token>)
    requires !Finished(output, length, stops) && Passes(next, prompt + output, length - |output|, stops, tokens)
    ensures Decode(next, prompt, output + tokens, length, stops) == Decode(next, prompt, output, length, stops)
    ensures Finished(output + tokens, length, stops) <==> |tokens| == length - |output| || tokens[|tokens| - 1] in stops
  {
    var now := output + tokens;
    assert now[|now| - 1] == tokens[|tokens| - 1];
    assert prompt + now == prompt + output + tokens;
    if !Finished(now, length, stops) {
      var rest := Continue(next, prompt + now, length - |now|, stops);
      assert now + rest == output + (tokens + rest);
    }
  }

  /** What the target says after the history and after each of the draft tokens. */
  function Posterior(next: Next, history: seq<Token>, draft: seq<Token>): (r: seq<Token>)
    ensures |r| == |draft| + 1
    decreases |draft|
  {
    [next(history)] + if draft == [] then [] else Posterior(next, history + [draft[0]], draft[1..])
  }

  lemma {:induction false} PosteriorAt(next: Next, history: seq<Token>, draft: seq<Token>, i: nat)
    requires i <= |draft|
    ensures Posterior(next, history, draft)[i] == next(history + draft[..i])
    decreases |draft|
  {
    if i == 0 {
      assert history + draft[..0] == history;
    } else {
      PosteriorAt(next, history + [draft[0]], draft[1..], i - 1);
      assert history + [draft[0]] + draft[1..][..i - 1] == history + draft[..i];
    }
  }

  /** Acceptance token by token: go on while the draft agrees, the budget lasts and no stop token came. */
  function Agreed(draft: seq<Token>, posterior: seq<Token>, limit: nat, stops: seq<Token>): (r: seq<Token>)
    requires |posterior| > |draft| && limit > 0
    decreases |draft|
  {
    if draft == [] || draft[0] != posterior[0] || limit == 1 || posterior[0] in stops then [posterior[0]]
    else [posterior[0]] + Agreed(draft[1..], posterior[1..], limit - 1, stops)
  }

  lemma AcceptedIsAgreed(draft: seq<Token>, posterior: seq<Token>, limit: nat, stops: seq<Token>)
    requires |posterior| > |draft| && limit > 0
    ensures Accepted(draft, posterior, Some(limit), stops).tokens == Agreed(draft, posterior, limit, stops)
  {
    var n := Matched(draft, posterior);
    var most := if limit < n + 1 then limit else n + 1;
    assert AtMost(posterior[..n + 1], Some(limit)) == posterior[..most];
    CutIsAgreed(draft, posterior, n, limit, most, stops);
  }

  lemma {:induction false} CutIsAgreed(draft: seq<Token>, posterior: seq<Token>, n: nat, limit: nat, most: nat, stops: seq<Token>)
    requires |posterior| > |draft| >= n && limit > 0 && most == if limit < n + 1 then limit else n + 1
    requires forall i | 0 <= i < n :: draft[i] == posterior[i]
    requires n < |draft| ==> draft[n] != posterior[n]
    ensures ThroughStop(posterior[..most], stops) == Agreed(draft, posterior, limit, stops)
    decreases n
  {
    var s := posterior[..most];
    if most == 1 || posterior[0] in stops {
      assert ThroughStop(s, stops) == [posterior[0]];
    } else {
      assert s[1..] == posterior[1..][..most - 1];
      CutIsAgreed(draft[1..], posterior[1..], n - 1, limit - 1, most - 1, stops);
    }
  }

  /** The accepted tokens are where plain decoding goes next, and it goes on from there unless they end it. */
  lemma {:induction false} AgreedContinues(next: Next, history: seq<Token>, draft: seq<Token>, budget: nat, stops: seq<Token>)
    requires budget > 0
    ensures Passes(next, history, budget, stops, Agreed(draft, Posterior(next, history, draft), budget, stops))
    decreases |draft|
  {
    var posterior := Posterior(next, history, draft);
    var t := posterior[0];
    if draft == [] || draft[0] != t || budget == 1 || t in stops {
      PassesOne(next, history, budget, stops);
    } else {
      var rest := Agreed(draft[1..], posterior[1..], budget - 1, stops);
      AgreedContinues(next, history + [t], draft[1..], budget - 1, stops);
      assert posterior[1..] == Posterior(next, history + [t], draft[1..]);
      PassesMore(next, history, budget, stops, rest);
    }
  }

  lemma PassesOne(next: Next, history: seq<Token>, budget: nat, stops: seq<Token>)
    requires budget > 0
    ensures Passes(next, history, budget, stops, [next(history)])
  {
  }

  lemma PassesMore(next: Next, history: seq<Token>, budget: nat, stops: seq<Token>, rest: seq<Token>)
    requires budget > 1 && next(history) !in stops
    requires Passes(next, history + [next(history)], budget - 1, stops, rest)
    ensures Passes(next, history, budget, stops, [next(history)] + rest)
  {
    var t, tokens := next(history), [next(history)] + rest;
    assert history + [t] + rest == history + tokens;
    assert tokens[|tokens| - 1] == rest[|rest| - 1];
  }

  /**
   * Verification is lossless: whatever the draft proposed, at least one token is accepted, plain decoding of the whole
   * output is where it was, and the request is finished exactly when the budget is used up or a stop token came last.
   */
  lemma AcceptedFollows(next: Next, prompt: seq<Token>, output: seq<Token>, length: nat, stops: seq<Token>, draft: seq<Token>)
    requires !Finished(output, length, stops)
    ensures var tokens := Accepted(draft, Posterior(next, prompt + output, draft), Some(length - |output|), stops).tokens;
            && 0 < |tokens| <= length - |output|
            && Decode(next, prompt, output + tokens, length, stops) == Decode(next, prompt, output, length, stops)
            && (Finished(output + tokens, length, stops)
                <==> |tokens| == length - |output| || tokens[|tokens| - 1] in stops)
  {
    var tokens := AcceptedPasses(next, prompt + output, draft, length - |output|, stops);
    DecodePasses(next, prompt, output, length, stops, tokens);
  }

  lemma AcceptedPasses(next: Next, history: seq<Token>, draft: seq<Token>, budget: nat, stops: seq<Token>) returns (tokens: seq<Token>)
    requires budget > 0
    ensures tokens == Accepted(draft, Posterior(next, history, draft), Some(budget), stops).tokens
    ensures Passes(next, history, budget, stops, tokens)
  {
    var posterior := Posterior(next, history, draft);
    AcceptedIsAgreed(draft, posterior, budget, stops);
    AgreedContinues(next, history, draft, budget, stops);
    tokens := Agreed(draft, posterior, budget, stops);
  }

  /**
   * The accepted tokens are the target's: agreed draft tokens, and after these at most one more, where the agreement
   * ends. There are as many as the agreement, the limit and the first stop token allow.
   */
  predicate Agrees(draft: seq<Token>, posterior: seq<Token>, limit: Option<int>, stops: seq<Token>, a: Acceptance)
    requires |posterior| > |draft|
  {
    && |a.tokens| <= |draft| + 1 && a.tokens == posterior[..|a.tokens|]
    && a.drafts <= |draft| && a.drafts <= |a.tokens| <= a.drafts + 1
    && (forall i | 0 <= i < a.drafts :: a.tokens[i] == draft[i])
    && (a.drafts < |a.tokens| ==> a.drafts == |draft| || a.tokens[a.drafts] != draft[a.drafts])
    && (limit.Some? ==> |a.tokens| <= limit.value)
    && (forall i | 0 <= i < |a.tokens| - 1 :: a.tokens[i] !in stops)
    && (a.drafts < |a.tokens| || limit == Some(|a.tokens|) || (a.tokens != [] && a.tokens[|a.tokens| - 1] in stops))
  }

  lemma AcceptedAgrees(draft: seq<Token>, posterior: seq<Token>, limit: Option<int>, stops: seq<Token>)
    requires |posterior| > |draft| && (limit.Some? ==> limit.value >= 0)
    ensures Agrees(draft, posterior, limit, stops, Accepted(draft, posterior, limit, stops))
  {
    var n := Matched(draft, posterior);
    assert forall i | 0 <= i < n :: draft[i] == draft[..n][i] == posterior[..n][i] == posterior[i];
    AcceptedCuts(posterior, n, limit, stops);
  }

  lemma AcceptedCuts(posterior: seq<Token>, n: nat, limit: Option<int>, stops: seq<Token>)
    requires n < |posterior| && (limit.Some? ==> limit.value >= 0)
    ensures var r := ThroughStop(AtMost(posterior[..n + 1], limit), stops);
            && |r| <= n + 1 && r == posterior[..|r|] && (limit.Some? ==> |r| <= limit.value)
            && (forall i | 0 <= i < |r| - 1 :: r[i] !in stops)
            && (|r| == n + 1 || limit == Some(|r|) || (r != [] && r[|r| - 1] in stops))
  {
    var bounded := AtMost(posterior[..n + 1], limit);
    var r := ThroughStop(bounded, stops);
    ThroughStopCuts(bounded, stops);
    assert bounded == posterior[..|bounded|];
    assert r == bounded[..|r|] == posterior[..|r|];
  }

  /** Within a budget at least one token is accepted, and all but the last are draft tokens. */
  lemma AcceptedWithin(draft: seq<Token>, posterior: seq<Token>, limit: nat, stops: seq<Token>)
    requires |posterior| > |draft| && limit > 0
    ensures var tokens := Accepted(draft, posterior, Some(limit), stops).tokens;
            0 < |tokens| <= |draft| + 1 && tokens[..|tokens| - 1] == draft[..|tokens| - 1]
  {
    AcceptedAgrees(draft, posterior, Some(limit), stops);
  }

  /** Nothing else is accepted: neither more nor fewer tokens, nor another count of draft tokens. */
  lemma AgreesOnly(draft: seq<Token>, posterior: seq<Token>, limit: Option<int>, stops: seq<Token>, a: Acceptance)
    requires |posterior| > |draft| && (limit.Some? ==> limit.value >= 0)
    ensures Agrees(draft, posterior, limit, stops, a) <==> a == Accepted(draft, posterior, limit, stops)
  {
    var b := Accepted(draft, posterior, limit, stops);
    AcceptedAgrees(draft, posterior, limit, stops);
    if Agrees(draft, posterior, limit, stops, a) {
      NoLonger(draft, posterior, limit, stops, a, b);
      NoLonger(draft, posterior, limit, stops, b, a);
    }
  }

  lemma NoLonger(draft: seq<Token>, posterior: seq<Token>, limit: Option<int>, stops: seq<Token>, a: Acceptance, b: Acceptance)
    requires |posterior| > |draft| && Agrees(draft, posterior, limit, stops, a) && Agrees(draft, posterior, limit, stops, b)
    ensures |b.tokens| <= |a.tokens|
  {
    assert forall i | 0 <= i < |a.tokens| && i < |b.tokens| :: a.tokens[i] == posterior[i] == b.tokens[i];
  }

  // ---- The target model ----

  /** How the target computes: a token's cell from the cells before it, and the next token from all cells. */
  datatype Model<!C> = Model(cell: (seq<C>, Token) -> C, out: seq<C> -> Token) {

    /** The cells of a token sequence. */
    function Cells(s: seq<Token>): (r: seq<C>)
      ensures |r| == |s|
    {
      if s == [] then [] else Cells(s[..|s| - 1]) + [cell(Cells(s[..|s| - 1]), s[|s| - 1])]
    }

    function T(): Next { s => out(Cells(s)) }

    lemma {:induction false} CellsPrefix(s: seq<Token>, n: nat)
      requires n <= |s|
      ensures Cells(s)[..n] == Cells(s[..n])
    {
      if n < |s| {
        assert s[..|s| - 1][..n] == s[..n];
        CellsPrefix(s[..|s| - 1], n);
      } else {
        assert s[..n] == s;
      }
    }
  }
}
