/** Run-lock tokens: `<pid>-<seed>-<counter>`, minted by one instance per process. */
module Tokens {
  import opened Text

  /** The atomic token counter is 64 bits wide and wraps around. */
  const COUNTER_SPAN: nat := 0x1_0000_0000_0000_0000

  /** One `RedisRunLock` instance: the process and the nanosecond it was built in. */
  datatype Instance = Instance(pid: nat, seed: nat)

  datatype TokenId = TokenId(instance: Instance, counter: nat)

  function Render(id: TokenId): string {
    Decimal(id.instance.pid) + ['-'] + Decimal(id.instance.seed) + ['-'] + Decimal(id.counter)
  }

  /** Two tokens are the same string only when all three parts agree. */
  lemma {:induction false} RenderInjective(a: TokenId, b: TokenId)
    requires Render(a) == Render(b)
    ensures a == b
  {
    hide Decimal, Value;
    var (pa, pb) := (Decimal(a.instance.pid), Decimal(b.instance.pid));
    var (sa, sb) := (Decimal(a.instance.seed), Decimal(b.instance.seed));
    var (ca, cb) := (Decimal(a.counter), Decimal(b.counter));
    assert Render(a) == pa + ['-'] + (sa + ['-'] + ca);
    assert Render(b) == pb + ['-'] + (sb + ['-'] + cb);
    SplitAtFirst('-', pa, sa + ['-'] + ca, pb, sb + ['-'] + cb);
    SplitAtFirst('-', sa, ca, sb, cb);
    ValueOfDecimal(a.instance.pid);
    ValueOfDecimal(b.instance.pid);
    ValueOfDecimal(a.instance.seed);
    ValueOfDecimal(b.instance.seed);
    ValueOfDecimal(a.counter);
    ValueOfDecimal(b.counter);
  }

  /** Pid, seed and counter in decimal, in this order. */
  lemma TokenIsSpelled(id: TokenId) returns (pid: string, seed: string, counter: string)
    ensures Render(id) == pid + "-" + seed + "-" + counter
    ensures Digits(pid) && Digits(seed) && Digits(counter)
    ensures Value(pid) == id.instance.pid && Value(seed) == id.instance.seed && Value(counter) == id.counter
  {
    pid, seed, counter := Decimal(id.instance.pid), Decimal(id.instance.seed), Decimal(id.counter);
    ValueOfDecimal(id.instance.pid);
    ValueOfDecimal(id.instance.seed);
    ValueOfDecimal(id.counter);
  }

  /** The token an instance hands out on its `k`-th call, counting from zero. */
  function Minted(instance: Instance, k: nat): TokenId {
    TokenId(instance, k % COUNTER_SPAN)
  }

  lemma SameRemainderIff(k: nat, l: nat)
    ensures k % 0x1_0000_0000_0000_0000 == l % 0x1_0000_0000_0000_0000
       <==> (k - l) % 0x1_0000_0000_0000_0000 == 0
  {
  }

  /**
   * Two calls on any instances collide exactly when they are on the same instance and a whole
   * number of counter periods apart.
   */
  lemma {:induction false} MintedCollideIff(i: Instance, k: nat, j: Instance, l: nat)
    ensures Render(Minted(i, k)) == Render(Minted(j, l))
       <==> i == j && (k - l) % COUNTER_SPAN == 0
  {
    SameRemainderIff(k, l);
    if Render(Minted(i, k)) == Render(Minted(j, l)) {
      RenderInjective(Minted(i, k), Minted(j, l));
    }
  }

  class RedisRunLock {
    const instance: Instance
    var counter: nat
    ghost var minted: nat

    ghost predicate Valid()
      reads this
    {
      counter == minted % COUNTER_SPAN
    }

    constructor (instance: Instance)
      ensures Valid() && this.instance == instance && minted == 0
    {
      this.instance := instance;
      counter := 0;
      minted := 0;
    }

    /** `fetch_add` hands out the old value and moves the counter on. */
    method NewToken() returns (token: string)
      requires Valid()
      modifies this
      ensures Valid() && minted == old(minted) + 1
      ensures token == Render(Minted(instance, old(minted)))
    {
      token := Render(TokenId(instance, counter));
      counter := (counter + 1) % COUNTER_SPAN;
      minted := minted + 1;
    }
  }
}
