/** The Poseidon code generator (`reference/gen_poseidon_sol.py`): the program it emits
    for a given width, run on wrapping 256-bit words, against the reference.  The
    constants stream from a byte blob through a moving pointer. */
module PoseidonYul {
  import opened Wrappers
  import opened Powers
  import opened Field
  import opened Bytes
  import opened Poseidon

  // ---- the fragment of Yul the generator emits ----

  datatype Var = S(i: nat) | N(i: nat) | X(i: nat) | Ctr | Ptr | Blob | Out

  datatype Expr =
    | Lit(n: nat)
    | Get(v: Var)
    | AddE(a: Expr, b: Expr)
    | ModE(a: Expr, m: Expr)
    | MulModE(a: Expr, b: Expr, m: Expr)
    | MLoad(a: Expr)
    | Lt(a: Expr, b: Expr)
    | Gt(a: Expr, b: Expr)
    | Or(a: Expr, b: Expr)

  datatype Stmt = Set(v: Var, e: Expr) | If(c: Expr, body: seq<Stmt>)

  /** `pre; for { r := 0 } lt(r, rounds) { r := add(r, 1) } { body }; post` */
  datatype Program = Program(pre: seq<Stmt>, rounds: nat, body: seq<Stmt>, post: seq<Stmt>)

  datatype Env = Env(s: seq<nat>, n: seq<nat>, x: seq<nat>, ctr: nat, ptr: nat, blob: nat, out: nat)

  function Nth(xs: seq<nat>, i: nat): nat { if i < |xs| then xs[i] else 0 }

  function Put(xs: seq<nat>, i: nat, w: nat): seq<nat> { if i < |xs| then xs[i := w] else xs }

  function Load(env: Env, v: Var): nat {
    match v
    case S(i) => Nth(env.s, i)
    case N(i) => Nth(env.n, i)
    case X(i) => Nth(env.x, i)
    case Ctr => env.ctr
    case Ptr => env.ptr
    case Blob => env.blob
    case Out => env.out
  }

  function Store(env: Env, v: Var, w: nat): Env {
    match v
    case S(i) => env.(s := Put(env.s, i, w))
    case N(i) => env.(n := Put(env.n, i, w))
    case X(i) => env.(x := Put(env.x, i, w))
    case Ctr => env.(ctr := w)
    case Ptr => env.(ptr := w)
    case Blob => env.(blob := w)
    case Out => env.(out := w)
  }

  /** A literal is its value (one wider than a word does not compile), and `or` is
      only ever applied to two comparison results. */
  function Eval(e: Expr, env: Env, mem: seq<Byte>): nat {
    match e
    case Lit(n) => n
    case Get(v) => Load(env, v)
    case AddE(a, b) => Add(Eval(a, env, mem), Eval(b, env, mem))
    case ModE(a, m) => var d := Eval(m, env, mem); if d == 0 then 0 else Eval(a, env, mem) % d
    case MulModE(a, b, m) => MulMod(Eval(a, env, mem), Eval(b, env, mem), Eval(m, env, mem))
    case MLoad(a) => WordAt(mem, Eval(a, env, mem))
    case Lt(a, b) => if Eval(a, env, mem) < Eval(b, env, mem) then 1 else 0
    case Gt(a, b) => if Eval(a, env, mem) > Eval(b, env, mem) then 1 else 0
    case Or(a, b) => if Eval(a, env, mem) == 0 && Eval(b, env, mem) == 0 then 0 else 1
  }

  function Exec(stmts: seq<Stmt>, env: Env, mem: seq<Byte>): Env
    decreases stmts
  {
    if stmts == [] then env else Exec(stmts[1..], ExecOne(stmts[0], env, mem), mem)
  }

  function ExecOne(stmt: Stmt, env: Env, mem: seq<Byte>): Env
    decreases stmt
  {
    match stmt
    case Set(v, e) => Store(env, v, Eval(e, env, mem))
    case If(c, body) => if Eval(c, env, mem) != 0 then Exec(body, env, mem) else env
  }

  function Loop(p: Program, env: Env, mem: seq<Byte>, fuel: nat): Option<Env>
    decreases fuel
  {
    if env.ctr < p.rounds then
      if fuel == 0 then None
      else var e := Exec(p.body, env, mem); Loop(p, e.(ctr := Add(e.ctr, 1)), mem, fuel - 1)
    else Some(env)
  }

  /** A call: arguments in `x`, every other variable zero, the blob pointer set. */
  function Run(p: Program, t: nat, args: seq<nat>, blob: nat, mem: seq<Byte>, fuel: nat): Option<nat> {
    var zero := seq(t, i => 0);
    var started := Exec(p.pre, Env(zero, zero, args, 0, 0, blob, 0), mem);
    match Loop(p, started.(ctr := 0), mem, fuel)
    case None => None
    case Some(e) => Some(Exec(p.post, e, mem).out)
  }

  // ---- the generator ----

  function Term(P: Params, i: nat, j: nat): Expr
    requires i < |P.M| && j < |P.M[i]|
  {
    MulModE(Lit(P.M[i][j]), Get(S(j)), Lit(P.p))
  }

  /** Row `i` of the mix over its first `k` terms. */
  function RowExpr(P: Params, i: nat, k: nat): Expr
    requires i < |P.M| && 0 < k <= |P.M[i]|
  {
    if k == 1 then Term(P, i, 0) else AddE(RowExpr(P, i, k - 1), Term(P, i, k - 1))
  }

  function MixRows(P: Params, k: nat): seq<Stmt>
    requires P.t > 0 && k <= |P.M| && forall i: nat | i < k :: |P.M[i]| == P.t
  {
    if k == 0 then [] else MixRows(P, k - 1) + [Set(N(k - 1), RowExpr(P, k - 1, P.t))]
  }

  function MixMoves(k: nat): seq<Stmt> {
    if k == 0 then [] else MixMoves(k - 1) + [Set(S(k - 1), Get(N(k - 1)))]
  }

  /** The fifth power of one lane, with `n0` as scratch. */
  function LaneBox(P: Params, i: nat): seq<Stmt> {
    [Set(N(0), MulModE(Get(S(i)), Get(S(i)), Lit(P.p))),
     Set(S(i), MulModE(MulModE(Get(N(0)), Get(N(0)), Lit(P.p)), Get(S(i)), Lit(P.p)))]
  }

  function ExtraBoxes(P: Params, k: nat): seq<Stmt> {
    if k <= 1 then [] else ExtraBoxes(P, k - 1) + LaneBox(P, k - 1)
  }

  function Ark(i: nat): Stmt {
    Set(S(i), AddE(Get(S(i)), MLoad(AddE(Get(Ptr), Lit(32 * i)))))
  }

  function Arks(k: nat): seq<Stmt> {
    if k == 0 then [] else Arks(k - 1) + [Ark(k - 1)]
  }

  /** The conditional S-boxes of the lanes above zero. */
  function Rest(P: Params): Stmt
    requires P.rf / 2 + P.rp >= 1
  {
    If(Or(Lt(Get(Ctr), Lit(P.rf / 2)), Gt(Get(Ctr), Lit(P.rf / 2 + P.rp - 1))), ExtraBoxes(P, P.t))
  }

  /** A negative bound has no literal, so the generator needs at least one round
      besides the terminal half. */
  function Body(P: Params): seq<Stmt>
    requires P.t > 0 && P.rf / 2 + P.rp >= 1
    requires |P.M| == P.t && forall i: nat | i < P.t :: |P.M[i]| == P.t
  {
    Arks(P.t) + [Set(Ptr, AddE(Get(Ptr), Lit(32 * P.t)))] + LaneBox(P, 0)
    + [Rest(P)]
    + MixRows(P, P.t) + MixMoves(P.t)
  }

  function Inits(P: Params, k: nat): seq<Stmt> {
    if k == 0 then [Set(Ptr, AddE(Get(Blob), Lit(32))), Set(S(0), Lit(0))]
    else Inits(P, k - 1) + [Set(S(k), ModE(Get(X(k - 1)), Lit(P.p)))]
  }

  function HashFn(P: Params): Program
    requires P.t > 0 && P.rf / 2 + P.rp >= 1
    requires |P.M| == P.t && forall i: nat | i < P.t :: |P.M[i]| == P.t
  {
    Program(Inits(P, P.t - 1), P.rf + P.rp, Body(P),
            [Set(S(0), ModE(Get(S(0)), Lit(P.p))), Set(Out, Get(S(0)))])
  }

  // ---- what a program needs from its parameters ----

  ghost predicate GenOk(P: Params) {
    && ParamsOk(P) && P.rf / 2 + P.rp >= 1
    && Times(P.t + 1, P.p) <= WORD
    && P.rf + P.rp < WORD
  }

  /** The constants lie in memory behind the blob's length word. */
  ghost predicate BlobAt(P: Params, blob: nat, mem: seq<Byte>) {
    && blob + 32 + 32 * |P.C| < WORD
    && (forall k: nat | k < |P.C| :: WordAt(mem, blob + 32 + 32 * k) == P.C[k])
  }

  /** `blob(C)` behind any 32-byte length word is such a memory. */
  lemma BlobIsThere(P: Params, pre: seq<Byte>)
    requires ParamsOk(P) && P.p <= WORD && |pre| >= 32 && |pre| + 32 * |P.C| < WORD
    ensures BlobAt(P, |pre| - 32, pre + Words(P.C))
  {
    forall k: nat | k < |P.C| ensures WordAt(pre + Words(P.C), |pre| + 32 * k) == P.C[k] {
      TableRead(pre, P.C, k);
    }
  }

  // ---- executing the pieces ----

  lemma {:induction false} ExecAppend(a: seq<Stmt>, b: seq<Stmt>, env: Env, mem: seq<Byte>)
    ensures Exec(a + b, env, mem) == Exec(b, Exec(a, env, mem), mem)
    decreases |a|
  {
    if a == [] {
      assert a + b == b;
    } else {
      var mid := ExecOne(a[0], env, mem);
      assert (a + b)[1..] == a[1..] + b;
      ExecAppend(a[1..], b, mid, mem);
    }
  }

  lemma ExecSet(v: Var, e: Expr, env: Env, mem: seq<Byte>)
    ensures Exec([Set(v, e)], env, mem) == Store(env, v, Eval(e, env, mem))
  {
  }

  /** Lanes standing for a state, from `lo` (inclusive) to `hi` (exclusive). */
  ghost predicate Lanes(p: nat, bound: nat, s: seq<nat>, state: seq<nat>, lo: nat, hi: nat)
    requires p > 0
  {
    hi <= |s| && hi <= |state| && forall i: nat | lo <= i < hi :: Lane(p, bound, s[i], state[i])
  }

  /** Entry `k` of the blob is read through the round pointer. */
  lemma BlobRead(P: Params, e: Env, mem: seq<Byte>, i: nat, k: nat)
    requires BlobAt(P, e.blob, mem) && k < |P.C| && e.ptr + 32 * i == e.blob + 32 + 32 * k
    ensures Eval(MLoad(AddE(Get(Ptr), Lit(32 * i))), e, mem) == P.C[k]
  {
    SmallMod(e.ptr + 32 * i, WORD);
    assert Eval(AddE(Get(Ptr), Lit(32 * i)), e, mem) == e.ptr + 32 * i;
  }

  /** Constant `i` of round `r` is the word `32 * i` bytes past that round's pointer. */
  lemma ArkEval(P: Params, e: Env, mem: seq<Byte>, r: nat, i: nat)
    requires GenOk(P) && BlobAt(P, e.blob, mem) && r < P.rf + P.rp && i < P.t == |e.s|
    requires e.ptr == e.blob + 32 + 32 * (r * P.t)
    ensures Eval(Ark(i).e, e, mem) == Add(e.s[i], Constant(P, r, i))
  {
    ConstantIndex(P, r, i);
    BlobRead(P, e, mem, i, r * P.t + i);
  }

  lemma {:induction false} ArksRun(P: Params, env: Env, mem: seq<Byte>, state: seq<nat>, r: nat, k: nat)
    requires GenOk(P) && BlobAt(P, env.blob, mem) && r < P.rf + P.rp && k <= P.t
    requires |env.s| == |state| == P.t && Lanes(P.p, P.t, env.s, state, 0, P.t)
    requires env.ptr == env.blob + 32 + 32 * (r * P.t)
    ensures var e := Exec(Arks(k), env, mem);
            && e == env.(s := e.s) && |e.s| == P.t
            && Lanes(P.p, P.t + 1, e.s, AddConstants(P, state, r), 0, k)
            && e.s[k..] == env.s[k..]
  {
    if k == 0 {
    } else {
      var i := k - 1;
      ArksRun(P, env, mem, state, r, i);
      var e := Exec(Arks(i), env, mem);
      ExecAppend(Arks(i), [Ark(i)], env, mem);
      ExecSet(S(i), Ark(i).e, e, mem);
      assert e.s[i] == e.s[i..][0] == env.s[i];
      ArkEval(P, e, mem, r, i);
      LaneAdd(P.p, P.t, e.s[i], state[i], Constant(P, r, i));
    }
  }

  lemma BoxRun(P: Params, env: Env, mem: seq<Byte>, i: nat, v: nat)
    requires 0 < P.p && |env.s| == |env.n| && i < |env.s| && env.s[i] % P.p == v
    ensures var e := Exec(LaneBox(P, i), env, mem);
            && e == env.(s := env.s[i := Pow5(P.p, v)], n := e.n) && |e.n| == |env.n|
  {
    var square := MulModE(Get(S(i)), Get(S(i)), Lit(P.p));
    var fourth := MulModE(Get(N(0)), Get(N(0)), Lit(P.p));
    var fifth := MulModE(fourth, Get(S(i)), Lit(P.p));
    var first, second := [Set(N(0), square)], [Set(S(i), fifth)];
    assert LaneBox(P, i) == first + second;
    ExecAppend(first, second, env, mem);
    ExecSet(N(0), square, env, mem);
    var mid := Exec(first, env, mem);
    ExecSet(S(i), fifth, mid, mem);
    var sq := MulMod(env.s[i], env.s[i], P.p);
    assert mid == env.(n := env.n[0 := sq]);
    assert Eval(fourth, mid, mem) == MulMod(sq, sq, P.p);
    assert Eval(fifth, mid, mem) == MulMod(Eval(fourth, mid, mem), env.s[i], P.p);
    LanePow5(P.p, env.s[i], v);
  }

  lemma {:induction false} ExtraRun(P: Params, env: Env, mem: seq<Byte>, state: seq<nat>, k: nat)
    requires GenOk(P) && |env.s| == |env.n| == |state| == P.t && 1 <= k <= P.t
    requires forall i: nat | 1 <= i < P.t :: env.s[i] % P.p == state[i]
    ensures var e := Exec(ExtraBoxes(P, k), env, mem);
            && e == env.(s := e.s, n := e.n) && |e.s| == |e.n| == P.t
            && (forall i: nat | 1 <= i < k :: e.s[i] == Pow5(P.p, state[i]))
            && (forall i: nat | i < P.t && (i == 0 || i >= k) :: e.s[i] == env.s[i])
  {
    if k <= 1 {
    } else {
      ExtraRun(P, env, mem, state, k - 1);
      var e := Exec(ExtraBoxes(P, k - 1), env, mem);
      ExecAppend(ExtraBoxes(P, k - 1), LaneBox(P, k - 1), env, mem);
      BoxRun(P, e, mem, k - 1, state[k - 1]);
    }
  }

  lemma EvalTerm(P: Params, i: nat, j: nat, env: Env, mem: seq<Byte>)
    requires GenOk(P) && |env.s| == P.t && i < P.t && j < P.t
    ensures Eval(Term(P, i, j), env, mem) == MulMod(P.M[i][j], env.s[j], P.p)
  {
  }

  lemma BoundRow(P: Params, k: nat)
    requires GenOk(P) && k <= P.t
    ensures Times(k, P.p) <= WORD
  {
    TimesMonotone(k, P.t + 1, P.p);
  }

  lemma {:induction false} RowRun(P: Params, env: Env, mem: seq<Byte>, state: seq<nat>, i: nat, k: nat)
    requires GenOk(P) && |env.s| == |state| == P.t && i < P.t && 0 < k <= P.t
    requires forall j: nat | j < P.t :: env.s[j] % P.p == state[j]
    ensures var w := Eval(RowExpr(P, i, k), env, mem); w < Times(k, P.p) && w % P.p == Dot(P.M[i], state, k) % P.p
  {
    var j := k - 1;
    EvalTerm(P, i, j, env, mem);
    if k == 1 {
      TermMod(P.p, P.M[i][0], env.s[0], state[0]);
      assert Dot(P.M[i], state, 0) == 0;
      assert Dot(P.M[i], state, 1) == P.M[i][0] * state[0];
      assert Times(1, P.p) == P.p;
      SmallMod(MulMod(P.M[i][0], env.s[0], P.p), P.p);
    } else {
      RowRun(P, env, mem, state, i, j);
      BoundRow(P, k);
      RowAdd(P.p, j, Eval(RowExpr(P, i, j), env, mem), Dot(P.M[i], state, j), P.M[i][j], env.s[j], state[j]);
    }
  }

  lemma {:induction false} MixRowsRun(P: Params, env: Env, mem: seq<Byte>, state: seq<nat>, k: nat)
    requires GenOk(P) && |env.s| == |env.n| == |state| == P.t && k <= P.t
    requires forall j: nat | j < P.t :: env.s[j] % P.p == state[j]
    ensures var e := Exec(MixRows(P, k), env, mem);
            && e == env.(n := e.n) && |e.n| == P.t
            && Lanes(P.p, P.t, e.n, Mix(P, state), 0, k)
  {
    if k == 0 {
    } else {
      MixRowsRun(P, env, mem, state, k - 1);
      var e := Exec(MixRows(P, k - 1), env, mem);
      ExecAppend(MixRows(P, k - 1), [Set(N(k - 1), RowExpr(P, k - 1, P.t))], env, mem);
      ExecSet(N(k - 1), RowExpr(P, k - 1, P.t), e, mem);
      RowRun(P, e, mem, state, k - 1, P.t);
    }
  }

  lemma {:induction false} MixMovesRun(env: Env, mem: seq<Byte>, k: nat)
    requires |env.s| == |env.n| && k <= |env.s|
    ensures var e := Exec(MixMoves(k), env, mem);
            && e == env.(s := e.s) && |e.s| == |env.s|
            && (forall i: nat | i < k :: e.s[i] == env.n[i])
  {
    if k == 0 {
    } else {
      MixMovesRun(env, mem, k - 1);
      ExecAppend(MixMoves(k - 1), [Set(S(k - 1), Get(N(k - 1)))], env, mem);
      ExecSet(S(k - 1), Get(N(k - 1)), Exec(MixMoves(k - 1), env, mem), mem);
    }
  }

  // ---- one round, all rounds, the whole call ----

  /** What holds before round `r`: lanes below `t * p` standing for the reference
      state, the pointer at that round's constants, the counter at `r`. */
  ghost predicate AtRound(P: Params, args: seq<nat>, env: Env, mem: seq<Byte>, r: nat) {
    && GenOk(P) && |args| == P.t - 1 && r <= P.rf + P.rp
    && BlobAt(P, env.blob, mem)
    && |env.s| == |env.n| == P.t
    && Lanes(P.p, P.t, env.s, State(P, args, r), 0, P.t)
    && env.ptr == env.blob + 32 + 32 * (r * P.t)
    && env.ctr == r
  }

  lemma Pow5Small(p: nat, v: nat)
    requires p > 0
    ensures Pow5(p, v) % p == Pow5(p, v)
  {
    SmallMod(Pow5(p, v), p);
  }

  lemma RestRun(P: Params, env: Env, mem: seq<Byte>, state: seq<nat>, r: nat)
    requires GenOk(P) && |env.s| == |env.n| == |state| == P.t && env.ctr == r
    requires forall i: nat | 1 <= i < P.t :: env.s[i] % P.p == state[i]
    ensures var e := Exec([Rest(P)], env, mem);
            && e == env.(s := e.s, n := e.n) && |e.s| == |e.n| == P.t && e.s[0] == env.s[0]
            && forall i: nat | 1 <= i < P.t :: e.s[i] % P.p == if FullRound(P, r) then Pow5(P.p, state[i]) else state[i]
  {
    var one := [Rest(P)];
    assert one[1..] == [] && Exec(one[1..], ExecOne(one[0], env, mem), mem) == ExecOne(one[0], env, mem);
    var early, late := Lt(Get(Ctr), Lit(P.rf / 2)), Gt(Get(Ctr), Lit(P.rf / 2 + P.rp - 1));
    assert Eval(early, env, mem) != 0 <==> r < P.rf / 2;
    assert Eval(late, env, mem) != 0 <==> r >= P.rf / 2 + P.rp;
    assert Eval(Rest(P).c, env, mem) == Eval(Or(early, late), env, mem);
    if FullRound(P, r) {
      ExtraRun(P, env, mem, state, P.t);
      forall i: nat | 1 <= i < P.t ensures ExecOne(one[0], env, mem).s[i] % P.p == Pow5(P.p, state[i]) {
        Pow5Small(P.p, state[i]);
      }
    }
  }

  lemma BoxesRun(P: Params, env: Env, mem: seq<Byte>, state: seq<nat>, r: nat)
    requires GenOk(P) && |env.s| == |env.n| == |state| == P.t && env.ctr == r
    requires Lanes(P.p, P.t + 1, env.s, state, 0, P.t)
    ensures var e := Exec(LaneBox(P, 0) + [Rest(P)], env, mem);
            && e == env.(s := e.s, n := e.n) && |e.s| == |e.n| == P.t
            && forall i: nat | i < P.t :: e.s[i] % P.p == Sbox(P, state, r)[i]
  {
    ExecAppend(LaneBox(P, 0), [Rest(P)], env, mem);
    assert Lane(P.p, P.t + 1, env.s[0], state[0]);
    BoxRun(P, env, mem, 0, state[0]);
    Pow5Small(P.p, state[0]);
    RestRun(P, Exec(LaneBox(P, 0), env, mem), mem, state, r);
  }

  lemma RoundEnd(r: nat, t: nat, rounds: nat)
    requires r < rounds
    ensures (r + 1) * t == r * t + t <= rounds * t
  {
  }

  lemma PointerStep(blob: nat, r: nat, t: nat, rounds: nat)
    requires r < rounds && blob + 32 + 32 * (rounds * t) < WORD
    ensures Add(blob + 32 + 32 * (r * t), 32 * t) == blob + 32 + 32 * ((r + 1) * t)
  {
    RoundEnd(r, t, rounds);
    SmallMod(blob + 32 + 32 * (r * t) + 32 * t, WORD);
  }

  lemma RoundRun(P: Params, args: seq<nat>, env: Env, mem: seq<Byte>, r: nat)
    requires AtRound(P, args, env, mem, r) && r < P.rf + P.rp
    ensures var e := Exec(Body(P), env, mem); AtRound(P, args, e.(ctr := Add(e.ctr, 1)), mem, r + 1)
  {
    var state := State(P, args, r);
    var step := [Set(Ptr, AddE(Get(Ptr), Lit(32 * P.t)))];
    var boxes := LaneBox(P, 0) + [Rest(P)];
    var parts := Arks(P.t) + step;
    assert Body(P) == parts + boxes + MixRows(P, P.t) + MixMoves(P.t);
    ArksRun(P, env, mem, state, r, P.t);
    ExecAppend(Arks(P.t), step, env, mem);
    var e1 := Exec(Arks(P.t), env, mem);
    ExecSet(Ptr, step[0].e, e1, mem);
    var e2 := Exec(parts, env, mem);
    PointerStep(env.blob, r, P.t, P.rf + P.rp);
    BoxesRun(P, e2, mem, AddConstants(P, state, r), r);
    ExecAppend(parts, boxes, env, mem);
    var e3 := Exec(parts + boxes, env, mem);
    MixRowsRun(P, e3, mem, Sbox(P, AddConstants(P, state, r), r), P.t);
    ExecAppend(parts + boxes, MixRows(P, P.t), env, mem);
    var e4 := Exec(parts + boxes + MixRows(P, P.t), env, mem);
    MixMovesRun(e4, mem, P.t);
    ExecAppend(parts + boxes + MixRows(P, P.t), MixMoves(P.t), env, mem);
    SmallMod(r + 1, WORD);
  }

  lemma {:induction false} LoopRun(P: Params, args: seq<nat>, env: Env, mem: seq<Byte>, r: nat, fuel: nat)
    requires AtRound(P, args, env, mem, r) && fuel >= P.rf + P.rp - r
    ensures var e := Loop(HashFn(P), env, mem, fuel); e.Some? && AtRound(P, args, e.value, mem, P.rf + P.rp)
    decreases P.rf + P.rp - r
  {
    if r == P.rf + P.rp {
    } else {
      RoundRun(P, args, env, mem, r);
      var e := Exec(Body(P), env, mem);
      LoopRun(P, args, e.(ctr := Add(e.ctr, 1)), mem, r + 1, fuel - 1);
    }
  }

  lemma {:induction false} InitsRun(P: Params, args: seq<nat>, env: Env, mem: seq<Byte>, k: nat)
    requires GenOk(P) && |args| == P.t - 1 && k < P.t && BlobAt(P, env.blob, mem)
    requires |env.s| == |env.n| == P.t && env.x == args
    ensures var e := Exec(Inits(P, k), env, mem);
            && e == env.(s := e.s, ptr := env.blob + 32) && |e.s| == P.t
            && (forall i: nat | i <= k :: e.s[i] == Start(P, args)[i])
  {
    if k == 0 {
      var a, b := Set(Ptr, AddE(Get(Blob), Lit(32))), Set(S(0), Lit(0));
      assert Inits(P, 0) == [a] + [b];
      ExecAppend([a], [b], env, mem);
      ExecSet(a.v, a.e, env, mem);
      ExecSet(b.v, b.e, Exec([a], env, mem), mem);
      SmallMod(env.blob + 32, WORD);
    } else {
      InitsRun(P, args, env, mem, k - 1);
      var stmt := Set(S(k), ModE(Get(X(k - 1)), Lit(P.p)));
      ExecAppend(Inits(P, k - 1), [stmt], env, mem);
      ExecSet(stmt.v, stmt.e, Exec(Inits(P, k - 1), env, mem), mem);
    }
  }

  lemma StartLanes(P: Params, args: seq<nat>)
    requires GenOk(P) && |args| == P.t - 1
    ensures Lanes(P.p, P.t, Start(P, args), Start(P, args), 0, P.t)
  {
    TimesMonotone(1, P.t, P.p);
    assert Times(1, P.p) == P.p;
    forall i: nat | i < P.t ensures Lane(P.p, P.t, Start(P, args)[i], Start(P, args)[i]) {
      SmallMod(Start(P, args)[i], P.p);
    }
  }

  /** The generator is correct: for every width, round counts, canonical constants and
      matrix whose lazy sums fit a word, the emitted program terminates within its
      round count and returns the reference digest, for all argument words. */
  lemma GeneratorCorrect(P: Params, args: seq<nat>, blob: nat, mem: seq<Byte>, fuel: nat)
    requires GenOk(P) && BlobAt(P, blob, mem) && |args| == P.t - 1 && fuel >= P.rf + P.rp
    ensures Run(HashFn(P), P.t, args, blob, mem, fuel) == Some(Hash(P, args))
  {
    var zero := seq(P.t, i => 0);
    var env := Env(zero, zero, args, 0, 0, blob, 0);
    InitsRun(P, args, env, mem, P.t - 1);
    var e := Exec(Inits(P, P.t - 1), env, mem).(ctr := 0);
    StartLanes(P, args);
    assert e.s == Start(P, args);
    LoopRun(P, args, e, mem, 0, fuel);
    var last := Loop(HashFn(P), e, mem, fuel).value;
    var post := HashFn(P).post;
    assert post == [post[0]] + [post[1]];
    ExecAppend([post[0]], [post[1]], last, mem);
    ExecSet(post[0].v, post[0].e, last, mem);
    ExecSet(post[1].v, post[1].e, Exec([post[0]], last, mem), mem);
    Canonical(P, args, P.rf + P.rp);
    SmallMod(Hash(P, args), P.p);
  }

  /** The bound in the form the generator's documentation gives it. */
  lemma EmittedCodeIsPoseidon(P: Params, args: seq<nat>, pre: seq<Byte>)
    requires ParamsOk(P) && P.rf / 2 + P.rp >= 1 && P.rf + P.rp < WORD
    requires (P.t + 1) * P.p <= WORD
    requires |args| == P.t - 1 && |pre| >= 32 && |pre| + 32 * |P.C| < WORD
    ensures Run(HashFn(P), P.t, args, |pre| - 32, pre + Words(P.C), P.rf + P.rp) == Some(Hash(P, args))
    ensures Hash(P, args) < P.p
  {
    TimesIsProduct(P.t + 1, P.p);
    TimesMonotone(1, P.t + 1, P.p);
    assert Times(1, P.p) == P.p;
    BlobIsThere(P, pre);
    GeneratorCorrect(P, args, |pre| - 32, pre + Words(P.C), P.rf + P.rp);
    Canonical(P, args, P.rf + P.rp);
  }
}
