/** One generation request: serial prefill, then the decode loop with its stop paths.
    The language model is any deterministic function of the forwards issued since its
    last reset. */
module Generators {
  import opened Greedy
  import opened Sampling
  import opened SampleTokens
  import opened SplitMix

  /** A forward call: token and position. */
  type Call = (int, int)

  type Logits = seq<Call> -> seq<real>

  ghost predicate LogitsFit(lm: Logits, vocab: int) {
    forall calls :: |lm(calls)| == vocab
  }

  /** The model as the generator sees it; a forward outside the vocabulary or the
      sequence capacity aborts, so both are preconditions. */
  class Model {
    const vocab: nat
    const maxSeq: int
    const loaded: bool
    const lm: Logits
    var calls: seq<Call>

    constructor (vocab: nat, maxSeq: int, loaded: bool, lm: Logits)
      ensures this.vocab == vocab && this.maxSeq == maxSeq && this.loaded == loaded && this.lm == lm
      ensures calls == []
    {
      this.vocab, this.maxSeq, this.loaded, this.lm := vocab, maxSeq, loaded, lm;
      calls := [];
    }

    method ResetState()
      requires loaded
      modifies this
      ensures calls == []
    {
      calls := [];
    }

    method ForwardToken(token: int, position: int)
      requires loaded && 0 <= token < vocab && 0 <= position < maxSeq
      modifies this
      ensures calls == old(calls) + [(token, position)]
    {
      calls := calls + [(token, position)];
    }

    function LogitsNow(): seq<real>
      reads this
    {
      lm(calls)
    }
  }

  datatype GenerationResult = GenerationResult(
    ok: bool,
    promptCount: nat,
    generated: seq<int>,
    stopReason: StopReason,
    forwardCount: nat
  )

  function Rejected(): GenerationResult {
    GenerationResult(false, 0, [], MaxNewTokens, 0)
  }

  datatype Request = Request(prompt: seq<int>, maxNew: int, eos: int, cfg: SamplingConfig) {

    /** The input contract for a model with this vocabulary and capacity. */
    predicate Accepted(vocab: nat, maxSeq: int, loaded: bool) {
      && cfg.Valid() && loaded && prompt != [] && maxNew >= 0 && 0 <= eos < vocab
      && (forall i | 0 <= i < |prompt| :: 0 <= prompt[i] < vocab)
      && |prompt| <= maxSeq
    }
  }

  // ----- the candidate stream -----------------------------------------------

  /** The forwards of feeding tokens from position 0 on. */
  function Fed(tokens: seq<int>): (calls: seq<Call>)
    ensures |calls| == |tokens|
  {
    seq(|tokens|, i requires 0 <= i < |tokens| => (tokens[i], i))
  }

  lemma FedSnoc(tokens: seq<int>, t: int)
    ensures Fed(tokens + [t]) == Fed(tokens) + [(t, |tokens|)]
  {
  }

  lemma FedGrown(prompt: seq<int>, generated: seq<int>, t: int)
    ensures Fed(prompt + (generated + [t])) == Fed(prompt + generated) + [(t, |prompt| + |generated|)]
  {
    assert prompt + (generated + [t]) == prompt + generated + [t];
    FedSnoc(prompt + generated, t);
  }

  /** The first n candidates and the generator state after drawing them: what decoding
      yields when it never stops. */
  function Stream(lm: Logits, e: Exp, r: Request, n: nat): (s: (seq<int>, bv64))
    requires ExpLike(e) && r.cfg.Valid()
    ensures |s.0| == n
  {
    if n == 0 then ([], r.cfg.seed)
    else
      var (tokens, state) := Stream(lm, e, r, n - 1);
      var (t, next) := Draw(e, lm(Fed(r.prompt + tokens)), r.cfg, state);
      (tokens + [t], next)
  }

  lemma {:induction false} StreamPrefix(lm: Logits, e: Exp, r: Request, m: nat, n: nat)
    requires ExpLike(e) && r.cfg.Valid() && m <= n
    ensures Stream(lm, e, r, n).0[..m] == Stream(lm, e, r, m).0
  {
    if m < n {
      StreamPrefix(lm, e, r, m, n - 1);
      StreamGrows(lm, e, r, n);
      var all, most := Stream(lm, e, r, n).0, Stream(lm, e, r, n - 1).0;
      assert all[..m] == all[..n - 1][..m] == most[..m];
    }
  }

  lemma StreamGrows(lm: Logits, e: Exp, r: Request, n: nat)
    requires ExpLike(e) && r.cfg.Valid() && n > 0
    ensures Stream(lm, e, r, n).0[..n - 1] == Stream(lm, e, r, n - 1).0
  {
  }

  lemma NextInVocab(lm: Logits, e: Exp, r: Request, vocab: nat, n: nat)
    requires ExpLike(e) && r.cfg.Valid() && LogitsFit(lm, vocab) && vocab >= 1 && n > 0
    ensures Stream(lm, e, r, n).0 == Stream(lm, e, r, n - 1).0 + [Stream(lm, e, r, n).0[n - 1]]
    ensures 0 <= Stream(lm, e, r, n).0[n - 1] < vocab
  {
    var (tokens, state) := Stream(lm, e, r, n - 1);
    var logits := lm(Fed(r.prompt + tokens));
    assert |logits| == vocab;
    DrawInRange(e, logits, r.cfg, state);
  }

  lemma {:induction false} StreamInVocab(lm: Logits, e: Exp, r: Request, vocab: nat, n: nat)
    requires ExpLike(e) && r.cfg.Valid() && LogitsFit(lm, vocab) && vocab >= 1
    ensures forall i | 0 <= i < n :: 0 <= Stream(lm, e, r, n).0[i] < vocab
  {
    if n > 0 {
      StreamInVocab(lm, e, r, vocab, n - 1);
      NextInVocab(lm, e, r, vocab, n);
      AppendInVocab(Stream(lm, e, r, n).0, Stream(lm, e, r, n - 1).0, vocab);
    }
  }

  lemma AppendInVocab(all: seq<int>, most: seq<int>, vocab: nat)
    requires |all| == |most| + 1 && all == most + [all[|most|]] && 0 <= all[|most|] < vocab
    requires forall i | 0 <= i < |most| :: 0 <= most[i] < vocab
    ensures forall i | 0 <= i < |all| :: 0 <= all[i] < vocab
  {
  }

  // ----- what a request produces --------------------------------------------

  /** Where decoding stops without an end token: the token budget or the free positions. */
  function Budget(r: Request, maxSeq: int): int {
    if r.maxNew < maxSeq - |r.prompt| then r.maxNew else maxSeq - |r.prompt|
  }

  ghost predicate EndsInEos(r: Request, generated: seq<int>) {
    generated != [] && generated[|generated| - 1] == r.eos
  }

  /** The closed form of an accepted request: the generated tokens are a prefix of the
      candidate stream with no end token before the last, ending at the first end token
      or at the budget, and the stop reason is decided in the order Eos, MaxNewTokens,
      MaxSeqLen. */
  ghost predicate Outcome(lm: Logits, e: Exp, r: Request, maxSeq: int, out: GenerationResult)
    requires ExpLike(e) && r.cfg.Valid()
  {
    var m := |out.generated|;
    && out.ok && out.promptCount == |r.prompt|
    && out.generated == Stream(lm, e, r, m).0
    && (forall i | 0 <= i < m - 1 :: out.generated[i] != r.eos)
    && m <= Budget(r, maxSeq)
    && (m < Budget(r, maxSeq) ==> EndsInEos(r, out.generated))
    && out.stopReason == (if EndsInEos(r, out.generated) then Eos
                          else if r.maxNew <= maxSeq - |r.prompt| then MaxNewTokens
                          else MaxSeqLen)
    && out.forwardCount == |Forwarded(r, out)|
  }

  /** The tokens that were forwarded: the prompt and what was generated, except that
      the last token stays unforwarded unless the sequence is full. */
  ghost function Forwarded(r: Request, out: GenerationResult): seq<int> {
    var all := r.prompt + out.generated;
    if out.stopReason == MaxSeqLen || out.generated == [] then all else all[..|all| - 1]
  }

  /** The closed form leaves no freedom. */
  lemma OutcomeUnique(lm: Logits, e: Exp, r: Request, maxSeq: int, a: GenerationResult, b: GenerationResult)
    requires ExpLike(e) && r.cfg.Valid()
    ensures Outcome(lm, e, r, maxSeq, a) && Outcome(lm, e, r, maxSeq, b) ==> a == b
  {
    if Outcome(lm, e, r, maxSeq, a) && Outcome(lm, e, r, maxSeq, b) {
      NoLonger(lm, e, r, maxSeq, a, b);
      NoLonger(lm, e, r, maxSeq, b, a);
    }
  }

  lemma StreamAgrees(lm: Logits, e: Exp, r: Request, m: nat, n: nat, i: nat)
    requires ExpLike(e) && r.cfg.Valid() && i < m <= n
    ensures Stream(lm, e, r, m).0[i] == Stream(lm, e, r, n).0[i]
  {
    StreamPrefix(lm, e, r, m, n);
    assert Stream(lm, e, r, n).0[..m][i] == Stream(lm, e, r, n).0[i];
  }

  lemma NoLonger(lm: Logits, e: Exp, r: Request, maxSeq: int, a: GenerationResult, b: GenerationResult)
    requires ExpLike(e) && r.cfg.Valid()
    requires Outcome(lm, e, r, maxSeq, a) && Outcome(lm, e, r, maxSeq, b)
    ensures |a.generated| >= |b.generated|
  {
    var m := |a.generated|;
    if 0 < m < |b.generated| {
      StreamAgrees(lm, e, r, m, |b.generated|, m - 1);
    }
  }

  /** k is where the candidate stream first has the end token. */
  ghost predicate FirstEos(lm: Logits, e: Exp, r: Request, k: nat)
    requires ExpLike(e) && r.cfg.Valid()
  {
    var tokens := Stream(lm, e, r, k + 1).0;
    tokens[k] == r.eos && forall i | 0 <= i < k :: tokens[i] != r.eos
  }

  /** With the first end token at candidate k, min(k + 1, max_new, capacity) tokens are
      generated, and the stop is Eos exactly when candidate k is one of them. */
  lemma StopsAtFirstEos(lm: Logits, e: Exp, r: Request, maxSeq: int, out: GenerationResult, k: nat)
    requires ExpLike(e) && r.cfg.Valid() && Outcome(lm, e, r, maxSeq, out) && FirstEos(lm, e, r, k)
    requires 0 <= Budget(r, maxSeq)
    ensures |out.generated| == if k < Budget(r, maxSeq) then k + 1 else Budget(r, maxSeq)
    ensures out.stopReason == Eos <==> k < Budget(r, maxSeq)
  {
    var m := |out.generated|;
    if m > k {
      StreamAgrees(lm, e, r, k + 1, m, k);
    }
    if 0 < m <= k {
      StreamAgrees(lm, e, r, m, k + 1, m - 1);
    }
  }

  /** With no end token among the candidates the budget allows, the budget is used up. */
  lemma StopsAtBudget(lm: Logits, e: Exp, r: Request, maxSeq: int, out: GenerationResult)
    requires ExpLike(e) && r.cfg.Valid() && Outcome(lm, e, r, maxSeq, out) && 0 <= Budget(r, maxSeq)
    requires forall i | 0 <= i < Budget(r, maxSeq) :: Stream(lm, e, r, Budget(r, maxSeq)).0[i] != r.eos
    ensures |out.generated| == Budget(r, maxSeq)
    ensures out.stopReason == if r.maxNew <= maxSeq - |r.prompt| then MaxNewTokens else MaxSeqLen
  {
    var m := |out.generated|;
    if m > 0 {
      StreamAgrees(lm, e, r, m, Budget(r, maxSeq), m - 1);
    }
  }

  /** How many tokens are generated and why it stops, by the last token and the two
      limits alone. */
  lemma StopExact(lm: Logits, e: Exp, r: Request, maxSeq: int, out: GenerationResult)
    requires ExpLike(e) && r.cfg.Valid() && Outcome(lm, e, r, maxSeq, out)
    ensures var m := |out.generated|;
      var ended := m > 0 && out.generated[m - 1] == r.eos;
      && m <= r.maxNew && |r.prompt| + m <= maxSeq
      && (forall i | 0 <= i < m - 1 :: out.generated[i] != r.eos)
      && (out.stopReason == Eos <==> ended)
      && (out.stopReason == MaxNewTokens <==> !ended && m == r.maxNew)
      && (out.stopReason == MaxSeqLen <==> !ended && m < r.maxNew && |r.prompt| + m == maxSeq)
  {
  }

  /** The forwards of an accepted request hit positions 0, 1, ... once each, below the
      capacity, with the tokens of prompt and output in order; their number is one less
      than those tokens unless the sequence is full or nothing was generated. */
  lemma ForwardDiscipline(lm: Logits, e: Exp, r: Request, vocab: nat, maxSeq: int, out: GenerationResult)
    requires ExpLike(e) && LogitsFit(lm, vocab) && r.Accepted(vocab, maxSeq, true)
    requires Outcome(lm, e, r, maxSeq, out)
    ensures var calls := Fed(Forwarded(r, out));
      && |calls| == out.forwardCount <= maxSeq && out.forwardCount <= |r.prompt + out.generated|
      && (forall i | 0 <= i < |calls| :: calls[i] == ((r.prompt + out.generated)[i], i))
      && forall i | 0 <= i < |calls| :: 0 <= calls[i].0 < vocab
    ensures var m := |out.generated|;
      out.forwardCount == |r.prompt| + if m == 0 || out.stopReason == MaxSeqLen then m else m - 1
  {
    StreamInVocab(lm, e, r, vocab, |out.generated|);
  }

  /** Greedy decoding is the chain of argmax picks, whatever the seed and the
      exponential, and draws nothing from the generator. */
  lemma {:induction false} GreedyStream(lm: Logits, e: Exp, r: Request, vocab: nat, n: nat)
    requires ExpLike(e) && r.cfg.Valid() && r.cfg.IsGreedy() && LogitsFit(lm, vocab) && vocab >= 1
    ensures Stream(lm, e, r, n).1 == r.cfg.seed
    ensures forall i | 0 <= i < n :: var tokens := Stream(lm, e, r, n).0;
      lm(Fed(r.prompt + tokens[..i])) != [] && tokens[i] == Argmax(lm(Fed(r.prompt + tokens[..i])))
  {
    if n > 0 {
      GreedyStream(lm, e, r, vocab, n - 1);
      var (tokens, state) := Stream(lm, e, r, n - 1);
      assert |lm(Fed(r.prompt + tokens))| == vocab;
      var all := Stream(lm, e, r, n).0;
      assert all[..n - 1] == tokens;
      forall i | 0 <= i < n - 1
        ensures all[..i] == tokens[..i]
      {
      }
    }
  }

  lemma NextTakesOne(lm: Logits, e: Exp, r: Request, vocab: nat, n: nat)
    requires ExpLike(e) && r.cfg.Valid() && !r.cfg.IsGreedy() && LogitsFit(lm, vocab) && vocab >= 1 && n > 0
    ensures Stream(lm, e, r, n).1 == NextState(Stream(lm, e, r, n - 1).1)
  {
    var (tokens, state) := Stream(lm, e, r, n - 1);
    var logits := lm(Fed(r.prompt + tokens));
    assert |logits| == vocab;
    DrawTakesOne(e, logits, r.cfg, state);
  }

  lemma StateNext(seed: bv64, n: nat, state: bv64, next: bv64)
    requires n > 0 && state == StateAfter(seed, n - 1) && next == NextState(state)
    ensures next == StateAfter(seed, n)
  {
  }

  lemma StreamStarts(lm: Logits, e: Exp, r: Request)
    requires ExpLike(e) && r.cfg.Valid()
    ensures Stream(lm, e, r, 0) == ([], r.cfg.seed) && StateAfter(r.cfg.seed, 0) == r.cfg.seed
  {
  }

  /** Sampling takes exactly one draw per candidate. */
  lemma {:induction false} OneDrawEach(lm: Logits, e: Exp, r: Request, vocab: nat, n: nat)
    requires ExpLike(e) && r.cfg.Valid() && !r.cfg.IsGreedy() && LogitsFit(lm, vocab) && vocab >= 1
    ensures Stream(lm, e, r, n).1 == StateAfter(r.cfg.seed, n)
  {
    if n == 0 {
      StreamStarts(lm, e, r);
    } else {
      var next := Stream(lm, e, r, n).1;
      NextTakesOne(lm, e, r, vocab, n);
      OneDrawEach(lm, e, r, vocab, n - 1);
      StateNext(r.cfg.seed, n, Stream(lm, e, r, n - 1).1, next);
    }
  }

  /** Candidate i is the token in whose stretch of the distribution, over the logits after
      the prompt and the candidates before it, the seed's number i falls. */
  lemma SampledStream(lm: Logits, e: Exp, r: Request, vocab: nat, n: nat, i: nat)
    requires ExpLike(e) && r.cfg.Valid() && !r.cfg.IsGreedy() && LogitsFit(lm, vocab) && vocab >= 1 && i < n
    ensures var tokens, u := Stream(lm, e, r, n).0, Uniform(Mix(StateAfter(r.cfg.seed, i + 1)));
      Covers(Effective(e, lm(Fed(r.prompt + tokens[..i])), r.cfg), u, tokens[i])
  {
    StreamPrefix(lm, e, r, i, n);
    StreamAgrees(lm, e, r, i + 1, n, i);
    OneDrawEach(lm, e, r, vocab, i);
    OneDrawEach(lm, e, r, vocab, i + 1);
    var (tokens, state) := Stream(lm, e, r, i);
    var logits := lm(Fed(r.prompt + tokens));
    assert |logits| == vocab;
    DrawExact(e, logits, r.cfg, state, Stream(lm, e, r, i + 1).0[i], Stream(lm, e, r, i + 1).1);
  }

  /** With top_k = 1 the candidates are the greedy ones, at any temperature and seed. */
  lemma {:induction false} TopOneStream(lm: Logits, e: Exp, r: Request, vocab: nat, n: nat)
    requires ExpLike(e) && r.cfg.Valid() && r.cfg.topK == 1 && LogitsFit(lm, vocab) && vocab >= 1
    ensures Stream(lm, e, r, n).0 == Stream(lm, e, r.(cfg := GreedyConfig()), n).0
  {
    if n > 0 {
      TopOneStream(lm, e, r, vocab, n - 1);
      var (tokens, state) := Stream(lm, e, r, n - 1);
      var logits := lm(Fed(r.prompt + tokens));
      assert |logits| == vocab;
      TopOneIsGreedy(e, logits, r.cfg, state);
    }
  }

  /** So a request with top_k = 1 yields exactly what the greedy request yields. */
  lemma TopOneIsGreedyRequest(lm: Logits, e: Exp, r: Request, vocab: nat, maxSeq: int, out: GenerationResult)
    requires ExpLike(e) && r.cfg.Valid() && r.cfg.topK == 1 && LogitsFit(lm, vocab) && vocab >= 1
    ensures Outcome(lm, e, r, maxSeq, out) <==> Outcome(lm, e, r.(cfg := GreedyConfig()), maxSeq, out)
  {
    TopOneStream(lm, e, r, vocab, |out.generated|);
  }

  // ----- the request loop ---------------------------------------------------

  method CheckPrompt(prompt: seq<int>, vocab: nat) returns (ok: bool)
    ensures ok <==> forall i | 0 <= i < |prompt| :: 0 <= prompt[i] < vocab
  {
    for i := 0 to |prompt|
      invariant forall j | 0 <= j < i :: 0 <= prompt[j] < vocab
    {
      if prompt[i] < 0 || prompt[i] >= vocab {
        return false;
      }
    }
    return true;
  }

  method CheckRequest(model: Model, r: Request) returns (ok: bool)
    ensures ok <==> r.Accepted(model.vocab, model.maxSeq, model.loaded)
    ensures ok <==>
              && r.cfg.topK >= 0 && 0.0 < r.cfg.topP <= 1.0 && model.loaded
              && 1 <= |r.prompt| <= model.maxSeq && (forall i | 0 <= i < |r.prompt| :: 0 <= r.prompt[i] < model.vocab)
              && r.maxNew >= 0 && 0 <= r.eos < model.vocab
  {
    ok := ValidateSamplingConfig(r.cfg);
    if !ok || !model.loaded || r.prompt == [] || r.maxNew < 0 {
      return false;
    }
    if r.eos < 0 || r.eos >= model.vocab {
      return false;
    }
    ok := CheckPrompt(r.prompt, model.vocab);
    if !ok || |r.prompt| > model.maxSeq {
      return false;
    }
  }

  method Prefill(model: Model, prompt: seq<int>) returns (forwards: nat)
    requires model.loaded && |prompt| <= model.maxSeq
    requires forall i | 0 <= i < |prompt| :: 0 <= prompt[i] < model.vocab
    modifies model
    ensures model.calls == Fed(prompt) && forwards == |prompt|
  {
    model.ResetState();
    forwards := 0;
    for i := 0 to |prompt|
      invariant forwards == i && model.calls == Fed(prompt[..i])
    {
      model.ForwardToken(prompt[i], i);
      FedSnoc(prompt[..i], prompt[i]);
      assert prompt[..i + 1] == prompt[..i] + [prompt[i]];
      forwards := forwards + 1;
    }
    assert prompt[..|prompt|] == prompt;
  }

  /** Draws the next token from the current logits; the range check on the result is
      kept, and never fires. */
  method ReadLogits(model: Model, e: Exp, sampler: Sampler) returns (ok: bool, token: int)
    requires ExpLike(e) && sampler.cfg.Valid() && LogitsFit(model.lm, model.vocab) && model.vocab >= 1
    modifies sampler.rng
    ensures (token, sampler.rng.state) == Draw(e, model.lm(model.calls), sampler.cfg, old(sampler.rng.state))
    ensures ok && 0 <= token < model.vocab
  {
    var logits := model.LogitsNow();
    ghost var state := sampler.rng.state;
    token := sampler.Sample(e, logits);
    DrawInRange(e, logits, sampler.cfg, state);
    ok := 0 <= token < model.vocab;
  }

  // ----- the decode loop's state as a value ---------------------------------

  /** After `step` tokens were placed and forwarded and the next candidate was drawn. */
  ghost predicate Decoding(lm: Logits, e: Exp, r: Request, maxSeq: int, generated: seq<int>, next: int, state: bv64)
    requires ExpLike(e) && r.cfg.Valid()
  {
    var step := |generated|;
    && generated == Stream(lm, e, r, step).0
    && Stream(lm, e, r, step + 1) == (generated + [next], state)
    && |r.prompt| + step <= maxSeq && step < r.maxNew
    && forall i | 0 <= i < step :: generated[i] != r.eos
  }

  lemma DecodingStarts(lm: Logits, e: Exp, r: Request, maxSeq: int, next: int, state: bv64)
    requires ExpLike(e) && r.cfg.Valid() && |r.prompt| < maxSeq && 0 < r.maxNew
    requires (next, state) == Draw(e, lm(Fed(r.prompt)), r.cfg, r.cfg.seed)
    ensures Decoding(lm, e, r, maxSeq, [], next, state)
  {
    assert Stream(lm, e, r, 0) == ([], r.cfg.seed);
    assert r.prompt + [] == r.prompt;
  }

  lemma DecodingContinues(lm: Logits, e: Exp, r: Request, maxSeq: int, generated: seq<int>, next: int, state: bv64,
      grown: seq<int>, after: int, later: bv64)
    requires ExpLike(e) && r.cfg.Valid() && Decoding(lm, e, r, maxSeq, generated, next, state)
    requires next != r.eos && |r.prompt| + |generated| < maxSeq && |generated| + 1 < r.maxNew
    requires grown == generated + [next]
    requires (after, later) == Draw(e, lm(Fed(r.prompt + grown)), r.cfg, state)
    ensures Decoding(lm, e, r, maxSeq, grown, after, later)
  {
    assert Stream(lm, e, r, |generated| + 2) == (grown + [after], later);
  }

  /** Stopping after a placed token meets the closed form, the token left unforwarded. */
  lemma StopMeetsOutcome(lm: Logits, e: Exp, r: Request, maxSeq: int, generated: seq<int>, next: int, state: bv64,
      out: GenerationResult)
    requires ExpLike(e) && r.cfg.Valid() && Decoding(lm, e, r, maxSeq, generated, next, state)
    requires |r.prompt| + |generated| < maxSeq
    requires out.ok && out.promptCount == |r.prompt| && out.generated == generated + [next]
    requires StopController(r.eos, r.maxNew, |r.prompt|, maxSeq).StopAfterToken(next, |generated|)
          == Stop(out.stopReason)
    requires out.forwardCount == |r.prompt| + |generated|
    ensures Outcome(lm, e, r, maxSeq, out) && Forwarded(r, out) == r.prompt + generated
  {
    assert r.prompt + out.generated == r.prompt + generated + [next];
    assert forall i | 0 <= i < |generated| :: out.generated[i] == generated[i];
  }

  /** Finding no room for the next token meets the closed form, all tokens forwarded. */
  lemma FullMeetsOutcome(lm: Logits, e: Exp, r: Request, maxSeq: int, generated: seq<int>, next: int, state: bv64,
      out: GenerationResult)
    requires ExpLike(e) && r.cfg.Valid() && Decoding(lm, e, r, maxSeq, generated, next, state)
    requires |r.prompt| + |generated| == maxSeq
    requires out == GenerationResult(true, |r.prompt|, generated, MaxSeqLen, maxSeq)
    ensures Outcome(lm, e, r, maxSeq, out) && Forwarded(r, out) == r.prompt + generated
  {
  }

  /** The observer saw, for each generated token, the logits it was drawn from. */
  ghost predicate Observed(lm: Logits, r: Request, generated: seq<int>, observed: seq<seq<real>>) {
    && |observed| == |generated|
    && forall i | 0 <= i < |generated| :: observed[i] == lm(Fed(r.prompt + generated[..i]))
  }

  lemma ObservedSnoc(lm: Logits, r: Request, generated: seq<int>, observed: seq<seq<real>>, next: int)
    requires Observed(lm, r, generated, observed)
    ensures Observed(lm, r, generated + [next], observed + [lm(Fed(r.prompt + generated))])
  {
    var all := generated + [next];
    assert all[..|generated|] == generated;
    forall i | 0 <= i < |generated|
      ensures all[..i] == generated[..i]
    {
    }
  }

  method ForwardAndRead(model: Model, e: Exp, sampler: Sampler, token: int, position: int, ghost fed: seq<Call>)
      returns (ok: bool, next: int)
    requires ExpLike(e) && sampler.cfg.Valid() && LogitsFit(model.lm, model.vocab)
    requires model.loaded && 0 <= token < model.vocab && 0 <= position < model.maxSeq
    requires fed == model.calls + [(token, position)]
    modifies model, sampler.rng
    ensures model.calls == fed
    ensures (next, sampler.rng.state) == Draw(e, model.lm(fed), sampler.cfg, old(sampler.rng.state))
    ensures ok && 0 <= next < model.vocab
  {
    model.ForwardToken(token, position);
    ok, next := ReadLogits(model, e, sampler);
  }

  method Decode(model: Model, e: Exp, r: Request, forwarded: nat)
      returns (out: GenerationResult, observed: seq<seq<real>>)
    requires ExpLike(e) && LogitsFit(model.lm, model.vocab) && r.Accepted(model.vocab, model.maxSeq, model.loaded)
    requires model.calls == Fed(r.prompt) && forwarded == |r.prompt| < model.maxSeq && r.maxNew > 0
    modifies model
    ensures Outcome(model.lm, e, r, model.maxSeq, out) && model.calls == Fed(Forwarded(r, out))
    ensures Observed(model.lm, r, out.generated, observed)
  {
    ghost var lm := model.lm;
    var n := |r.prompt|;
    var sampler := new Sampler(r.cfg);
    var stop := StopController(r.eos, r.maxNew, n, model.maxSeq);
    var forwards := forwarded;
    var generated: seq<int> := [];
    observed := [];
    var ok, next := ReadLogits(model, e, sampler);
    if !ok {
      assert false;
    }
    DecodingStarts(lm, e, r, model.maxSeq, next, sampler.rng.state);
    assert r.prompt + generated == r.prompt;
    var step := 0;
    while step < r.maxNew
      invariant step == |generated| < r.maxNew && forwards == n + step
      invariant fresh(sampler.rng) && 0 <= next < model.vocab
      invariant Decoding(lm, e, r, model.maxSeq, generated, next, sampler.rng.state)
      invariant model.calls == Fed(r.prompt + generated)
      invariant Observed(lm, r, generated, observed)
    {
      if !stop.Placeable(step) {
        out := GenerationResult(true, n, generated, MaxSeqLen, forwards);
        FullMeetsOutcome(lm, e, r, model.maxSeq, generated, next, sampler.rng.state, out);
        return;
      }
      ghost var before, drawn, state := generated, next, sampler.rng.state;
      ObservedSnoc(lm, r, generated, observed, next);
      observed := observed + [model.LogitsNow()];
      generated := generated + [next];
      var decision := stop.StopAfterToken(next, step);
      if decision.Stop? {
        out := GenerationResult(true, n, generated, decision.reason, forwards);
        StopMeetsOutcome(lm, e, r, model.maxSeq, before, drawn, state, out);
        return;
      }
      FedGrown(r.prompt, before, next);
      ok, next := ForwardAndRead(model, e, sampler, next, stop.PositionOf(step), Fed(r.prompt + generated));
      forwards := forwards + 1;
      if !ok {
        assert false;
      }
      DecodingContinues(lm, e, r, model.maxSeq, before, drawn, state, generated, next, sampler.rng.state);
      step := step + 1;
    }
    assert false;
  }

  /** One request. A rejected one forwards nothing and leaves the model as it was; an
      accepted one meets the closed form whatever the model had been fed before, and has
      forwarded each of its tokens once, in order, at positions 0, 1, ... */
  method Generate(model: Model, e: Exp, r: Request) returns (out: GenerationResult, observed: seq<seq<real>>)
    requires ExpLike(e) && LogitsFit(model.lm, model.vocab)
    modifies model
    ensures out.ok <==> r.Accepted(model.vocab, model.maxSeq, model.loaded)
    ensures !out.ok ==> out == Rejected() && observed == [] && model.calls == old(model.calls)
    ensures !out.ok ==> out.generated == [] && out.promptCount == 0 && out.forwardCount == 0
    ensures out.ok ==> Outcome(model.lm, e, r, model.maxSeq, out) && model.calls == Fed(Forwarded(r, out))
    ensures out.ok ==> Observed(model.lm, r, out.generated, observed)
  {
    observed := [];
    var accepted := CheckRequest(model, r);
    if !accepted {
      return Rejected(), observed;
    }
    var forwards := Prefill(model, r.prompt);
    var n := |r.prompt|;
    assert Stream(model.lm, e, r, 0).0 == [] && r.prompt + [] == r.prompt;
    if r.maxNew == 0 {
      out := GenerationResult(true, n, [], MaxNewTokens, forwards);
      return;
    }
    if n >= model.maxSeq {
      out := GenerationResult(true, n, [], MaxSeqLen, forwards);
      return;
    }
    out, observed := Decode(model, e, r, forwards);
  }

  /** The greedy entry point. */
  method GenerateGreedy(model: Model, e: Exp, prompt: seq<int>, maxNew: int, eos: int)
      returns (out: GenerationResult, observed: seq<seq<real>>)
    requires ExpLike(e) && LogitsFit(model.lm, model.vocab)
    modifies model
    ensures var r := Request(prompt, maxNew, eos, GreedyConfig());
      && (out.ok <==> r.Accepted(model.vocab, model.maxSeq, model.loaded))
      && (!out.ok ==> out == Rejected() && observed == [] && model.calls == old(model.calls))
      && (out.ok ==> Outcome(model.lm, e, r, model.maxSeq, out) && model.calls == Fed(Forwarded(r, out)))
      && (out.ok ==> Observed(model.lm, r, out.generated, observed))
  {
    out, observed := Generate(model, e, Request(prompt, maxNew, eos, GreedyConfig()));
  }
}
