/** The numbers that a selective scan computes, without its recurrence: every output is a sum over all tokens before it
    (vllm/_xpu_ops.py). */
module ScanResponse {
  import opened SelectiveScan

  /** A lane of a vector, or zero beyond its end. */
  function At(v: Vec, k: nat): real {
    if k < |v| then v[k] else 0.0
  }

  /** The step size of a token: biased, then made positive if the layer asks for it. */
  function Rate(l: Layer, t: Token): real {
    match l.deltaBias
    case None => if l.deltaSoftplus then l.softplus(t.delta) else t.delta
    case Some(bias) => if l.deltaSoftplus then l.softplus(t.delta + bias) else t.delta + bias
  }

  /** What a token with this step size leaves of lane `k`. */
  function Factor(l: Layer, rate: real, k: nat): real
    requires k < |l.a|
  {
    l.exp(rate * l.a[k])
  }

  /** What is left of lane `k` over tokens `i` to `n`: the product of their factors. */
  function Decay(l: Layer, toks: seq<Token>, k: nat, i: nat, n: nat): real
    requires k < |l.a| && i <= n <= |toks|
    decreases n
  {
    if i == n then 1.0 else Factor(l, Rate(l, toks[n - 1]), k) * Decay(l, toks, k, i, n - 1)
  }

  /** What token `i` puts into lane `k`. */
  function Input(l: Layer, t: Token, k: nat): real {
    Rate(l, t) * t.u * At(t.b, k)
  }

  /** Lane `k` after `n` tokens of a fresh sequence, from its first `m` tokens: the sum of what they put in, each times
      what is left of it. */
  function Response(l: Layer, toks: seq<Token>, k: nat, m: nat, n: nat): real
    requires k < |l.a| && m <= n <= |toks|
  {
    if m == 0 then 0.0
    else Response(l, toks, k, m - 1, n) + Input(l, toks[m - 1], k) * Decay(l, toks, k, m, n)
  }

  /** The first `k` lanes after token `n`, against the token's output vector. */
  function Against(l: Layer, toks: seq<Token>, n: nat, k: nat): real
    requires k <= |l.a| && n < |toks|
  {
    if k == 0 then 0.0
    else Against(l, toks, n, k - 1) + Response(l, toks, k - 1, n + 1, n + 1) * At(toks[n].c, k - 1)
  }

  /** The output of token `n` of a fresh sequence. */
  function OutputOf(l: Layer, toks: seq<Token>, n: nat): real
    requires n < |toks|
  {
    Against(l, toks, n, |l.a|) + (match l.d case None => 0.0 case Some(d) => d * toks[n].u)
  }

  /** The same after the gate. */
  function GatedOf(l: Layer, toks: seq<Token>, n: nat): real
    requires n < |toks|
  {
    OutputOf(l, toks, n) * l.gate(toks[n].z)
  }

  // ---- The recurrence computes them -----------------------------------------------------------

  predicate Blank(s: Vec) {
    forall k :: 0 <= k < |s| ==> s[k] == 0.0
  }

  lemma {:induction false} Distribute(x: real, y: real, z: real, w: real)
    ensures x * (y + z * w) == x * y + z * (x * w)
  {
  }

  /** One more token decays what was there. */
  lemma {:induction false} ResponseNext(l: Layer, toks: seq<Token>, k: nat, m: nat, n: nat)
    requires k < |l.a| && m <= n < |toks|
    ensures Response(l, toks, k, m, n + 1) == Factor(l, Rate(l, toks[n]), k) * Response(l, toks, k, m, n)
  {
    hide Input, Factor, Decay;
    if m == 0 {
      Vanishes(Factor(l, Rate(l, toks[n]), k));
    } else {
      ResponseNext(l, toks, k, m - 1, n);
      DecayNext(l, toks, k, m, n);
      Distribute(Factor(l, Rate(l, toks[n]), k), Response(l, toks, k, m - 1, n), Input(l, toks[m - 1], k),
                 Decay(l, toks, k, m, n));
    }
  }

  lemma {:induction false} DecayNext(l: Layer, toks: seq<Token>, k: nat, i: nat, n: nat)
    requires k < |l.a| && i <= n < |toks|
    ensures Decay(l, toks, k, i, n + 1) == Factor(l, Rate(l, toks[n]), k) * Decay(l, toks, k, i, n)
  {
    hide Factor;
  }

  lemma {:induction false} DecayNone(l: Layer, toks: seq<Token>, k: nat, n: nat)
    requires k < |l.a| && n <= |toks|
    ensures Decay(l, toks, k, n, n) == 1.0
  {
  }

  lemma {:induction false} StepAt(l: Layer, s: Vec, t: Token, k: nat)
    requires k < |l.a|
    ensures |Step(l, s, t)| == |l.a|
    ensures Step(l, s, t)[k] == Factor(l, Rate(l, t), k) * At(s, k) + Input(l, t, k)
  {
    assert Step(l, s, t)[k] == StepLane(l, s, t, k);
    RateIs(l, t);
    LaneIs(s, k);
    LaneIs(t.b, k);
    FadeIs(l, Rate(l, t), k);
    hide Fade, Factor, Lane, At, Delta, Rate;
  }

  lemma {:induction false} RateIs(l: Layer, t: Token)
    ensures Delta(l, t.delta) == Rate(l, t)
  {
  }

  lemma {:induction false} AtIs(v: Vec, k: nat)
    requires k < |v|
    ensures At(v, k) == v[k]
  {
  }

  lemma {:induction false} LaneIs(v: Vec, k: nat)
    ensures Lane(v, k) == At(v, k)
  {
  }

  lemma {:induction false} FadeIs(l: Layer, delta: real, k: nat)
    requires k < |l.a|
    ensures Fade(l, delta, k) == Factor(l, delta, k)
  {
  }

  lemma {:induction false} Scaled(x: real)
    ensures x * 1.0 == x
  {
  }

  /** Lane `k` of the state after `n` tokens, from any state. */
  lemma {:induction false} StateIs(l: Layer, s0: Vec, toks: seq<Token>, n: nat, k: nat)
    requires k < |l.a| && n <= |toks|
    ensures At(StateAt(l, s0, toks, n), k) == Decay(l, toks, k, 0, n) * At(s0, k) + Response(l, toks, k, n, n)
    ensures n > 0 ==> |StateAt(l, s0, toks, n)| == |l.a|
  {
    hide Step, Input, Factor, Decay, At;
    if n == 0 {
      DecayNone(l, toks, k, 0);
      Scaled(At(s0, k));
    } else {
      var s, t, e := StateAt(l, s0, toks, n - 1), toks[n - 1], Factor(l, Rate(l, toks[n - 1]), k);
      StateIs(l, s0, toks, n - 1, k);
      StepAt(l, s, t, k);
      AtIs(StateAt(l, s0, toks, n), k);
      ResponseNext(l, toks, k, n - 1, n - 1);
      DecayNext(l, toks, k, 0, n - 1);
      assert Decay(l, toks, k, n, n) == 1.0 by {
        DecayNone(l, toks, k, n);
      }
      Combined(At(StateAt(l, s0, toks, n), k), e, At(s, k), Input(l, t, k), Decay(l, toks, k, 0, n - 1), At(s0, k),
               Response(l, toks, k, n - 1, n - 1));
    }
  }

  lemma {:induction false} Combined(next: real, e: real, x: real, input: real, d: real, y: real, r: real)
    requires x == d * y + r && next == e * x + input
    ensures next == e * d * y + (e * r + input * 1.0)
  {
    assert e * (d * y + r) == e * d * y + e * r;
  }

  lemma {:induction false} FreshState(l: Layer, s0: Vec, toks: seq<Token>, n: nat, k: nat)
    requires k < |l.a| && n <= |toks| && Blank(s0)
    ensures At(StateAt(l, s0, toks, n), k) == Response(l, toks, k, n, n)
  {
    hide StateAt, Decay, Response;
    StateIs(l, s0, toks, n, k);
    Vanishes(Decay(l, toks, k, 0, n));
  }

  lemma {:induction false} Vanishes(x: real)
    ensures x * 0.0 == 0.0
  {
  }

  lemma {:induction false} DotIs(l: Layer, s0: Vec, toks: seq<Token>, n: nat, k: nat)
    requires k <= |l.a| && n < |toks| && Blank(s0)
    ensures Dot(StateAt(l, s0, toks, n + 1), toks[n].c, k) == Against(l, toks, n, k)
  {
    hide StateAt, Response;
    if k == 0 {
    } else {
      DotIs(l, s0, toks, n, k - 1);
      FreshState(l, s0, toks, n + 1, k - 1);
    }
  }

  /** The outputs of a fresh sequence. */
  lemma {:induction false} OutputIs(l: Layer, s0: Vec, toks: seq<Token>, n: nat)
    requires n < |toks| && Blank(s0)
    ensures OutAt(l, s0, toks, n) == OutputOf(l, toks, n) && OutZAt(l, s0, toks, n) == GatedOf(l, toks, n)
  {
    hide StateAt, Against, Dot;
    DotIs(l, s0, toks, n, |l.a|);
  }

  // ---- Buffers and states ---------------------------------------------------------------------

  /** The buffers hold, from `start` on, the outputs of tokens `n` to `n + m` of the fresh sequence `all`. */
  ghost predicate HoldsResponse(l: Layer, all: seq<Token>, n: nat, m: nat, start: nat, delta: seq<real>, z: seq<real>) {
    && n + m <= |all| && start + m <= |delta| && (l.hasZ ==> start + m <= |z|)
    && (forall p {:trigger delta[p]} :: start <= p < start + m ==> delta[p] == OutputOf(l, all, n + p - start))
    && (l.hasZ ==> forall p {:trigger z[p]} :: start <= p < start + m ==> z[p] == GatedOf(l, all, n + p - start))
  }

  /** A state is that of the fresh sequence `all` after `n` tokens. */
  ghost predicate LanesAre(l: Layer, s: Vec, all: seq<Token>, n: nat) {
    n <= |all| && |s| == |l.a| && forall k :: 0 <= k < |l.a| ==> s[k] == Response(l, all, k, n, n)
  }

  lemma {:induction false} ScanHolds(l: Layer, s0: Vec, toks: seq<Token>, start: nat, delta0: seq<real>, z0: seq<real>,
                                     delta: seq<real>, z: seq<real>)
    requires Overwritten(l, s0, toks, start, |toks|, delta0, z0, delta, z) && Blank(s0)
    ensures HoldsResponse(l, toks, 0, |toks|, start, delta, z)
  {
    hide OutAt, OutZAt, OutputOf, GatedOf;
    forall p | start <= p < start + |toks|
      ensures delta[p] == OutputOf(l, toks, p - start) && (l.hasZ ==> z[p] == GatedOf(l, toks, p - start))
    {
      OutputIs(l, s0, toks, p - start);
    }
  }

  lemma {:induction false} StateLanes(l: Layer, s0: Vec, toks: seq<Token>, n: nat)
    requires n <= |toks| && Blank(s0) && |s0| == |l.a|
    ensures LanesAre(l, StateAt(l, s0, toks, n), toks, n)
  {
    hide Response, Step;
    var s := StateAt(l, s0, toks, n);
    assert |s| == |l.a| by {
      StateLength(l, s0, toks, n);
    }
    forall k | 0 <= k < |l.a|
      ensures s[k] == Response(l, toks, k, n, n)
    {
      FreshState(l, s0, toks, n, k);
      AtIs(s, k);
    }
  }

  lemma {:induction false} StateLength(l: Layer, s0: Vec, toks: seq<Token>, n: nat)
    requires n <= |toks| && |s0| == |l.a|
    ensures |StateAt(l, s0, toks, n)| == |l.a|
  {
    hide StepLane;
  }

  // ---- Linearity ------------------------------------------------------------------------------

  /** Sequences that differ in their inputs only, the third being a combination of the others. */
  predicate Combines(toks: seq<Token>, toks': seq<Token>, mixed: seq<Token>, x: real, y: real) {
    && |toks| == |toks'| == |mixed|
    && (forall i :: 0 <= i < |toks| ==>
          toks'[i] == toks[i].(u := toks'[i].u) && mixed[i] == toks[i].(u := x * toks[i].u + y * toks'[i].u))
  }

  lemma {:induction false} SameDecay(l: Layer, toks: seq<Token>, toks': seq<Token>, k: nat, i: nat, n: nat)
    requires k < |l.a| && i <= n <= |toks| == |toks'|
    requires forall j :: 0 <= j < |toks| ==> toks'[j] == toks[j].(u := toks'[j].u)
    ensures Decay(l, toks, k, i, n) == Decay(l, toks', k, i, n)
    decreases n
  {
    hide Factor, Rate;
    if i < n {
      SameDecay(l, toks, toks', k, i, n - 1);
      SameRate(l, toks[n - 1], toks'[n - 1], toks'[n - 1]);
    }
  }

  lemma {:induction false} Mix(x: real, y: real, r: real, r': real, p: real, p': real, w: real)
    ensures x * r + y * r' + (x * p + y * p') * w == x * (r + p * w) + y * (r' + p' * w)
  {
  }

  lemma {:induction false} MixInput(q: real, x: real, u: real, y: real, u': real, b: real)
    ensures q * (x * u + y * u') * b == x * (q * u * b) + y * (q * u' * b)
  {
    assert q * (x * u + y * u') == x * (q * u) + y * (q * u');
    assert (x * (q * u) + y * (q * u')) * b == x * (q * u * b) + y * (q * u' * b);
  }

  lemma {:induction false} InputLinear(l: Layer, t: Token, t': Token, mixed: Token, x: real, y: real, k: nat)
    requires t' == t.(u := t'.u) && mixed == t.(u := x * t.u + y * t'.u)
    ensures Input(l, mixed, k) == x * Input(l, t, k) + y * Input(l, t', k)
  {
    SameRate(l, t, t', mixed);
    MixInput(Rate(l, t), x, t.u, y, t'.u, At(t.b, k));
    hide Rate, At;
  }

  /** The scan is linear in its inputs. */
  lemma {:induction false} ResponseLinear(l: Layer, toks: seq<Token>, toks': seq<Token>, mixed: seq<Token>, x: real,
                                          y: real, k: nat, m: nat, n: nat)
    requires k < |l.a| && m <= n <= |toks| && Combines(toks, toks', mixed, x, y)
    ensures Response(l, mixed, k, m, n) == x * Response(l, toks, k, m, n) + y * Response(l, toks', k, m, n)
  {
    hide Decay, Input;
    if m == 0 {
      Vanishes(x);
      Vanishes(y);
    } else {
      ResponseLinear(l, toks, toks', mixed, x, y, k, m - 1, n);
      SameDecay(l, toks, toks', k, m, n);
      SameDecay(l, toks, mixed, k, m, n);
      var t, t' := toks[m - 1], toks'[m - 1];
      InputLinear(l, t, t', mixed[m - 1], x, y, k);
      Mix(x, y, Response(l, toks, k, m - 1, n), Response(l, toks', k, m - 1, n), Input(l, t, k), Input(l, t', k),
          Decay(l, toks, k, m, n));
    }
  }

  lemma {:induction false} SameRate(l: Layer, t: Token, t': Token, t'': Token)
    requires t' == t.(u := t'.u) && t'' == t.(u := t''.u)
    ensures Rate(l, t') == Rate(l, t) == Rate(l, t'')
  {
  }

  lemma {:induction false} AgainstLinear(l: Layer, toks: seq<Token>, toks': seq<Token>, mixed: seq<Token>, x: real,
                                         y: real, n: nat, k: nat)
    requires k <= |l.a| && n < |toks| && Combines(toks, toks', mixed, x, y)
    ensures Against(l, mixed, n, k) == x * Against(l, toks, n, k) + y * Against(l, toks', n, k)
  {
    hide Response, At;
    if k == 0 {
      Vanishes(x);
      Vanishes(y);
    } else {
      AgainstLinear(l, toks, toks', mixed, x, y, n, k - 1);
      ResponseLinear(l, toks, toks', mixed, x, y, k - 1, n + 1, n + 1);
      Mix(x, y, Against(l, toks, n, k - 1), Against(l, toks', n, k - 1), Response(l, toks, k - 1, n + 1, n + 1),
          Response(l, toks', k - 1, n + 1, n + 1), At(toks[n].c, k - 1));
    }
  }

  /** The outputs of a combination of inputs are that combination of the outputs. */
  lemma {:induction false} OutputLinear(l: Layer, toks: seq<Token>, toks': seq<Token>, mixed: seq<Token>, x: real,
                                        y: real, n: nat)
    requires n < |toks| && Combines(toks, toks', mixed, x, y)
    ensures OutputOf(l, mixed, n) == x * OutputOf(l, toks, n) + y * OutputOf(l, toks', n)
  {
    hide Against;
    AgainstLinear(l, toks, toks', mixed, x, y, n, |l.a|);
    var a, a', d := Against(l, toks, n, |l.a|), Against(l, toks', n, |l.a|), if l.d.Some? then l.d.value else 0.0;
    MixOutput(x, y, a, a', d, toks[n].u, toks'[n].u);
    if l.d.None? {
      Vanishes(x);
      Vanishes(y);
    }
  }

  lemma {:induction false} MixOutput(x: real, y: real, a: real, a': real, d: real, u: real, u': real)
    ensures x * a + y * a' + d * (x * u + y * u') == x * (a + d * u) + y * (a' + d * u')
  {
  }
}
