/** The allocator that numbers the pools redis.Wrap names itself (redis/client.go). */
module PoolNames {

  /** How many live wrappers hold each name. */
  type Holds = map<string, nat>

  function HoldsOf(held: Holds, name: string): nat {
    if name in held then held[name] else 0
  }

  function Digit(d: nat): char
    requires d < 10
  {
    "0123456789"[d]
  }

  /** The decimal numeral of n, as fmt's %d prints it. */
  function Decimal(n: nat): string {
    if n < 10 then [Digit(n)] else Decimal(n / 10) + [Digit(n % 10)]
  }

  function Numbered(base: string, n: nat): string {
    base + "-" + Decimal(n)
  }

  /** No wrapper holds name, and none holds a shard name derived from it. */
  ghost predicate IsFree(held: Holds, name: string) {
    name !in held && forall h :: h in held ==> !(name + "/" <= h)
  }

  ghost predicate IsLowestFree(held: Holds, base: string, n: nat) {
    n >= 1 && IsFree(held, Numbered(base, n)) &&
    forall m :: 1 <= m < n ==> !IsFree(held, Numbered(base, m))
  }

  /** held keeps base-n from being handed out. */
  ghost predicate Blocks(h: string, base: string, n: nat) {
    h == Numbered(base, n) || Numbered(base, n) + "/" <= h
  }

  /** Some held name keeps base-n from being handed out. */
  ghost predicate Blocked(names: set<string>, base: string, n: nat) {
    exists h :: h in names && Blocks(h, base, n)
  }

  lemma {:induction false} DecimalHasNoSlash(n: nat)
    ensures |Decimal(n)| >= 1 && forall i :: 0 <= i < |Decimal(n)| ==> Decimal(n)[i] != '/'
  {
    if n >= 10 {
      DecimalHasNoSlash(n / 10);
    }
  }

  /** What a numeral's digits say by place value. */
  function PlaceValue(s: string): int {
    if s == "" then 0 else 10 * PlaceValue(s[..|s| - 1]) + (s[|s| - 1] as int - '0' as int)
  }

  /** A numeral consists of the digits from '0' to '9', has no leading zero, and reads back as n. */
  lemma {:induction false} DecimalReadsBack(n: nat)
    ensures PlaceValue(Decimal(n)) == n
    ensures forall i :: 0 <= i < |Decimal(n)| ==> '0' <= Decimal(n)[i] <= '9'
    ensures |Decimal(n)| >= 1 && (Decimal(n)[0] == '0' ==> n == 0)
  {
    var s := Decimal(n);
    if n >= 10 {
      DecimalReadsBack(n / 10);
      assert s[..|s| - 1] == Decimal(n / 10);
      DigitIsItsValue(n % 10);
    } else {
      DigitIsItsValue(n);
      assert s[..0] == "";
    }
  }

  lemma DigitIsItsValue(d: nat)
    requires d < 10
    ensures Digit(d) as int == '0' as int + d
  {
  }

  lemma DecimalInjective(m: nat, n: nat)
    requires Decimal(m) == Decimal(n)
    ensures m == n
  {
    DecimalReadsBack(m);
    DecimalReadsBack(n);
  }

  lemma NumberedInjective(base: string, m: nat, n: nat)
    requires Numbered(base, m) == Numbered(base, n)
    ensures m == n
  {
    var k := |base| + 1;
    assert Numbered(base, m)[k..] == Decimal(m) && Numbered(base, n)[k..] == Decimal(n);
    DecimalInjective(m, n);
  }

  /** The slash that ends one numbered name cannot fall inside the digits of another. */
  lemma SlashFallsAfterDigits(base: string, m: nat, n: nat, h: string)
    requires Numbered(base, m) + "/" <= h && Numbered(base, n) <= h
    ensures |Numbered(base, n)| <= |Numbered(base, m)|
  {
    var cut := |Numbered(base, m)|;
    DecimalHasNoSlash(m);
    DecimalHasNoSlash(n);
    assert h[cut] == (Numbered(base, m) + "/")[cut] == '/';
    forall i | |base| < i < |Numbered(base, n)|
      ensures h[i] != '/'
    {
      assert h[i] == Numbered(base, n)[i] == Decimal(n)[i - |base| - 1];
    }
  }

  /** A held name blocks at most one number. */
  lemma BlocksAtMostOne(h: string, base: string, m: nat, n: nat)
    requires Blocks(h, base, m) && Blocks(h, base, n)
    ensures m == n
  {
    var x, y := Numbered(base, m), Numbered(base, n);
    assert x <= h && y <= h by {
      assert h != x ==> x == (x + "/")[..|x|];
      assert h != y ==> y == (y + "/")[..|y|];
    }
    if h != x {
      SlashFallsAfterDigits(base, m, n, h);
    }
    if h != y {
      SlashFallsAfterDigits(base, n, m, h);
    }
    assert |x| == |y|;
    assert x == h[..|x|] == y;
    NumberedInjective(base, m, n);
  }

  /** Pigeonhole: k numbers all blocked need k held names. */
  lemma {:induction false} BlockedNumbersAreBounded(names: set<string>, base: string, k: nat)
    requires forall m :: 1 <= m <= k ==> Blocked(names, base, m)
    ensures k <= |names|
  {
    if k > 0 {
      assert Blocked(names, base, k);
      var h :| h in names && Blocks(h, base, k);
      forall m | 1 <= m <= k - 1
        ensures Blocked(names - {h}, base, m)
      {
        assert Blocked(names, base, m);
        var g :| g in names && Blocks(g, base, m);
        if g == h {
          BlocksAtMostOne(h, base, m, k);
        }
      }
      BlockedNumbersAreBounded(names - {h}, base, k - 1);
    }
  }

  lemma NotFreeIsBlocked(held: Holds, base: string, n: nat)
    requires !IsFree(held, Numbered(base, n))
    ensures Blocked(held.Keys, base, n)
  {
    if Numbered(base, n) in held {
      assert Blocks(Numbered(base, n), base, n);
    } else {
      var h :| h in held && Numbered(base, n) + "/" <= h;
      assert Blocks(h, base, n);
    }
  }

  /** Among |held|+1 numbers one is free, so the search in Acquire ends. */
  lemma SomeNumberIsFree(held: Holds, base: string, k: nat)
    requires forall m :: 1 <= m <= k ==> !IsFree(held, Numbered(base, m))
    ensures k <= |held|
  {
    forall m | 1 <= m <= k
      ensures Blocked(held.Keys, base, m)
    {
      NotFreeIsBlocked(held, base, m);
    }
    BlockedNumbersAreBounded(held.Keys, base, k);
    assert |held.Keys| == |held|;
  }

  /** What one release leaves behind. */
  function Released(held: Holds, name: string): Holds {
    if HoldsOf(held, name) <= 1 then held - {name} else held[name := held[name] - 1]
  }

  class Allocator {
    var held: Holds

    ghost predicate Valid()
      reads this
    {
      forall name :: name in held ==> held[name] > 0
    }

    constructor ()
      ensures Valid() && held == map[]
    {
      held := map[];
    }

    method Free(name: string) returns (free: bool)
      requires Valid()
      ensures free <==> IsFree(held, name)
    {
      if name in held && held[name] > 0 {
        return false;
      }
      var prefix := name + "/";
      var rest := held.Keys;
      while rest != {}
        invariant rest <= held.Keys
        invariant forall h :: h in held && h !in rest ==> !(prefix <= h)
        decreases rest
      {
        var h :| h in rest;
        if prefix <= h {
          return false;
        }
        rest := rest - {h};
      }
      return true;
    }

    /** Holds and returns the lowest free numbered name; the number never
        exceeds the count of held names plus one. */
    method Acquire(base: string) returns (name: string, ghost n: nat)
      requires Valid()
      modifies this
      ensures Valid() && IsLowestFree(old(held), base, n) && n <= |old(held)| + 1
      ensures name == Numbered(base, n) && held == old(held)[name := 1]
    {
      var i := 1;
      while true
        invariant 1 <= i <= |held| + 1 && held == old(held)
        invariant forall m :: 1 <= m < i ==> !IsFree(held, Numbered(base, m))
        decreases |held| + 1 - i
      {
        name, n := Numbered(base, i), i;
        var free := Free(name);
        if free {
          held := held[name := 1];
          return;
        }
        SomeNumberIsFree(held, base, i);
        i := i + 1;
      }
    }

    /** Records a caller-chosen name. */
    method Hold(name: string)
      requires Valid()
      modifies this
      ensures Valid() && held == old(held)[name := HoldsOf(old(held), name) + 1]
    {
      held := held[name := HoldsOf(held, name) + 1];
    }

    /** Gives back one hold; a name nobody holds stays unheld. */
    method Release(name: string)
      requires Valid()
      modifies this
      ensures Valid() && held == Released(old(held), name)
      ensures forall other :: HoldsOf(held, other) ==
                (if other == name && HoldsOf(old(held), name) > 0
                 then HoldsOf(old(held), name) - 1 else HoldsOf(old(held), other))
    {
      var before: int := HoldsOf(held, name);
      var left := before - 1;
      if left <= 0 {
        held := held - {name};
      } else {
        held := held[name := left];
      }
    }
  }
}
