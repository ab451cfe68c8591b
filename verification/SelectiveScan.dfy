/** The recurrence of the selective state space scan, and the kernel that computes it over
    in-place buffers (vllm/_xpu_ops.py).  Arithmetic is exact; `exp`, softplus and the gate
    `z / (1 + exp(-z))` are parameters. */
module SelectiveScan {
  import opened Options

  type Vec = seq<real>

  /** The weights of one dimension of a layer. */
  datatype Layer = Layer(
    a: Vec,
    d: Option<real>,
    deltaBias: Option<real>,
    deltaSoftplus: bool,
    hasZ: bool,
    exp: real -> real,
    softplus: real -> real,
    gate: real -> real)

  datatype Token = Token(u: real, delta: real, b: Vec, c: Vec, z: real)

  /** A masked load: lanes beyond the vector read as zero. */
  function Lane(v: Vec, k: nat): real {
    if k < |v| then v[k] else 0.0
  }

  function Delta(l: Layer, raw: real): real {
    var biased := if l.deltaBias.Some? then raw + l.deltaBias.value else raw;
    if l.deltaSoftplus then l.softplus(biased) else biased
  }

  /** `dA` of one lane. */
  function Fade(l: Layer, delta: real, k: nat): real
    requires k < |l.a|
  {
    l.exp(delta * l.a[k])
  }

  /** One lane of one step of the recurrence. */
  function StepLane(l: Layer, s: Vec, t: Token, k: nat): real
    requires k < |l.a|
  {
    var delta := Delta(l, t.delta);
    Fade(l, delta, k) * Lane(s, k) + delta * t.u * Lane(t.b, k)
  }

  /** One step of the recurrence. */
  function Step(l: Layer, s: Vec, t: Token): Vec {
    seq(|l.a|, k requires 0 <= k < |l.a| => StepLane(l, s, t, k))
  }

  function Dot(x: Vec, y: Vec, k: nat): real {
    if k == 0 then 0.0 else Dot(x, y, k - 1) + Lane(x, k - 1) * Lane(y, k - 1)
  }

  /** The output for a token, given the state after its step. */
  function Emit(l: Layer, s: Vec, t: Token): real {
    Dot(s, t.c, |l.a|) + (if l.d.Some? then l.d.value * t.u else 0.0)
  }

  /** The plain scan: the state after the first `n` tokens. */
  function StateAt(l: Layer, s0: Vec, toks: seq<Token>, n: nat): Vec
    requires n <= |toks|
  {
    if n == 0 then s0 else Step(l, StateAt(l, s0, toks, n - 1), toks[n - 1])
  }

  function OutAt(l: Layer, s0: Vec, toks: seq<Token>, i: nat): real
    requires i < |toks|
  {
    Emit(l, StateAt(l, s0, toks, i + 1), toks[i])
  }

  function OutZAt(l: Layer, s0: Vec, toks: seq<Token>, i: nat): real
    requires i < |toks|
  {
    OutAt(l, s0, toks, i) * l.gate(toks[i].z)
  }

  /** A scan resumed from the state after `m` tokens is the rest of the scan. */
  lemma {:induction false} Resume(l: Layer, s0: Vec, toks: seq<Token>, m: nat, n: nat)
    requires m + n <= |toks|
    ensures StateAt(l, StateAt(l, s0, toks, m), toks[m..], n) == StateAt(l, s0, toks, m + n)
  {
    hide Step;
    if n == 0 {
    } else {
      Resume(l, s0, toks, m, n - 1);
      assert toks[m..][n - 1] == toks[m + n - 1];
    }
  }

  lemma {:induction false} StateAtPrefix(l: Layer, s0: Vec, toks: seq<Token>, toks': seq<Token>, n: nat)
    requires n <= |toks| && n <= |toks'| && toks[..n] == toks'[..n]
    ensures StateAt(l, s0, toks, n) == StateAt(l, s0, toks', n)
  {
    hide Step;
    if n == 0 {
    } else {
      assert toks[..n][..n - 1] == toks[..n - 1] && toks'[..n][..n - 1] == toks'[..n - 1];
      assert toks[..n][n - 1] == toks'[..n][n - 1];
      StateAtPrefix(l, s0, toks, toks', n - 1);
    }
  }

  // ---- The kernel ---------------------------------------------------------------------------

  /** The tokens of one sequence, as the buffers hold them before the kernel runs. */
  function Toks(l: Layer, u: seq<real>, b: seq<Vec>, c: seq<Vec>, delta: seq<real>, z: seq<real>, start: nat, len: nat)
    : (toks: seq<Token>)
    requires start + len <= |u| == |b| == |c| == |delta|
    requires l.hasZ ==> |z| == |u|
    ensures |toks| == len
  {
    seq(len, i requires 0 <= i < len =>
      Token(u[start + i], delta[start + i], b[start + i], c[start + i], if l.hasZ then z[start + i] else 0.0))
  }

  /** The first `p` outputs have replaced the `delta` and `z` entries they alias; nothing else changed. */
  ghost predicate Overwritten(l: Layer, s0: Vec, toks: seq<Token>, start: nat, p: nat,
                              delta0: seq<real>, z0: seq<real>, delta: seq<real>, z: seq<real>)
  {
    && p <= |toks| && start + |toks| <= |delta0| == |delta| && |z0| == |z| && (l.hasZ ==> |z| == |delta|)
    && (forall i {:trigger delta[i]} :: 0 <= i < |delta| ==>
          delta[i] == if start <= i < start + p then OutAt(l, s0, toks, i - start) else delta0[i])
    && (forall i {:trigger z[i]} :: 0 <= i < |z| ==>
          z[i] == if l.hasZ && start <= i < start + p then OutZAt(l, s0, toks, i - start) else z0[i])
  }

  /** The next token is still intact, and storing its outputs moves on by one. */
  lemma {:induction false} NextToken(l: Layer, s0: Vec, toks: seq<Token>, u: seq<real>, b: seq<Vec>, c: seq<Vec>,
                                     start: nat, p: nat, delta0: seq<real>, z0: seq<real>, delta: seq<real>,
                                     z: seq<real>)
    requires p < |toks| && start + |toks| <= |u| == |b| == |c| == |delta0| && (l.hasZ ==> |z0| == |u|)
    requires toks == Toks(l, u, b, c, delta0, z0, start, |toks|)
    requires Overwritten(l, s0, toks, start, p, delta0, z0, delta, z)
    ensures |delta| == |delta0| && |z| == |z0|
    ensures toks[p] == Token(u[start + p], delta[start + p], b[start + p], c[start + p],
                             if l.hasZ then z[start + p] else 0.0)
    ensures Overwritten(l, s0, toks, start, p + 1, delta0, z0, delta[start + p := OutAt(l, s0, toks, p)],
                        if l.hasZ then z[start + p := OutZAt(l, s0, toks, p)] else z)
  {
    hide OutAt, OutZAt;
  }

  /** The inner loop of the kernel: `n` tokens from position `p` of the sequence on. */
  method ScanTokens(l: Layer, u: seq<real>, b: seq<Vec>, c: seq<Vec>, delta: array<real>, z: array<real>,
                    start: nat, p: nat, n: nat, state0: Vec,
                    ghost s0: Vec, ghost toks: seq<Token>, ghost delta0: seq<real>, ghost z0: seq<real>)
    returns (state: Vec)
    requires p + n <= |toks| && start + |toks| <= |u| == |b| == |c| == |delta0| && (l.hasZ ==> |z0| == |u|)
    requires toks == Toks(l, u, b, c, delta0, z0, start, |toks|)
    requires delta != z && state0 == StateAt(l, s0, toks, p)
    requires Overwritten(l, s0, toks, start, p, delta0, z0, delta[..], z[..])
    modifies delta, z
    ensures state == StateAt(l, s0, toks, p + n)
    ensures Overwritten(l, s0, toks, start, p + n, delta0, z0, delta[..], z[..])
  {
    hide Overwritten, Step, Emit, Toks;
    state := state0;
    for k := 0 to n
      invariant state == StateAt(l, s0, toks, p + k)
      invariant Overwritten(l, s0, toks, start, p + k, delta0, z0, delta[..], z[..])
    {
      var pos := start + p + k;
      NextToken(l, s0, toks, u, b, c, start, p + k, delta0, z0, delta[..], z[..]);
      var token := Token(u[pos], delta[pos], b[pos], c[pos], if l.hasZ then z[pos] else 0.0);
      state := Step(l, state, token);
      var out := Emit(l, state, token);
      assert state == StateAt(l, s0, toks, p + k + 1) && out == OutAt(l, s0, toks, p + k);
      ghost var d, g := delta[..], z[..];
      delta[pos] := out;
      assert delta[..] == d[pos := out] && z[..] == g;
      if l.hasZ {
        var outZ := out * l.gate(token.z);
        z[pos] := outZ;
        assert z[..] == g[pos := outZ] && outZ == OutZAt(l, s0, toks, p + k);
      }
    }
  }

  lemma {:induction false} ScanBegins(l: Layer, s0: Vec, toks: seq<Token>, start: nat, delta: seq<real>, z: seq<real>)
    requires start + |toks| <= |delta| && (l.hasZ ==> |z| == |delta|)
    ensures Overwritten(l, s0, toks, start, 0, delta, z, delta, z) && StateAt(l, s0, toks, 0) == s0
  {
  }
}
