/** Permission masks. The flag enumerations and their bit values belong to a part of the
    program that is not modelled here, so a mask is an opaque natural number, the value of
    each flag is a parameter, and combining flags is bitwise OR. */
module Masks {

  /** The sandbox capability mask that the application record stores as an integer. */
  datatype Permissions = Permissions(permissions: nat)

  /** The D-Bus interface mask, a separate domain with the same shape. */
  datatype DBusPermissions = DBusPermissions(permissions: nat)

  /** The integer values of the capability flags used by the installer. */
  datatype PermissionFlags = PermissionFlags(dri: nat, dbus: nat, ipc: nat, pulseaudio: nat, pipewire: nat)

  /** The integer values of the D-Bus interface flags used by the installer. */
  datatype DBusFlags = DBusFlags(notifications: nat)

  /** Bit `k` of `n` is set. */
  predicate HasBit(n: nat, k: nat)
  {
    if k == 0 then n % 2 == 1 else HasBit(n / 2, k - 1)
  }

  /** Bitwise OR, Python's `|` on flag values. */
  function Or(a: nat, b: nat): nat
    decreases a + b
  {
    if a == 0 then b
    else if b == 0 then a
    else 2 * Or(a / 2, b / 2) + (if a % 2 == 1 || b % 2 == 1 then 1 else 0)
  }

  lemma {:induction false} ZeroHasNoBit(k: nat)
    ensures !HasBit(0, k)
  {
    if k > 0 { ZeroHasNoBit(k - 1); }
  }

  /** A bit is set in `a | b` exactly when it is set in `a` or in `b`. */
  lemma {:induction false} OrBit(a: nat, b: nat, k: nat)
    ensures HasBit(Or(a, b), k) <==> HasBit(a, k) || HasBit(b, k)
    decreases a + b
  {
    if a == 0 {
      ZeroHasNoBit(k);
    } else if b == 0 {
      ZeroHasNoBit(k);
    } else {
      var low := if a % 2 == 1 || b % 2 == 1 then 1 else 0;
      var r := Or(a, b);
      assert r == 2 * Or(a / 2, b / 2) + low;
      assert r % 2 == low && r / 2 == Or(a / 2, b / 2);
      if k > 0 { OrBit(a / 2, b / 2, k - 1); }
    }
  }

  /** Two masks with the same bits are the same mask. */
  lemma {:induction false} SameBits(a: nat, b: nat)
    requires forall k: nat :: HasBit(a, k) == HasBit(b, k)
    ensures a == b
    decreases a + b
  {
    assert HasBit(a, 0) == HasBit(b, 0);
    forall k: nat ensures HasBit(a / 2, k) == HasBit(b / 2, k) {
      assert HasBit(a, k + 1) == HasBit(b, k + 1);
    }
    if a != 0 || b != 0 {
      SameBits(a / 2, b / 2);
    }
  }

  lemma OrCommutative(a: nat, b: nat)
    ensures Or(a, b) == Or(b, a)
  {
    forall k: nat ensures HasBit(Or(a, b), k) == HasBit(Or(b, a), k) {
      OrBit(a, b, k);
      OrBit(b, a, k);
    }
    SameBits(Or(a, b), Or(b, a));
  }

  lemma OrIdempotent(a: nat)
    ensures Or(a, a) == a
  {
    forall k: nat ensures HasBit(Or(a, a), k) == HasBit(a, k) {
      OrBit(a, a, k);
    }
    SameBits(Or(a, a), a);
  }

  lemma OrAssociative(a: nat, b: nat, c: nat)
    ensures Or(Or(a, b), c) == Or(a, Or(b, c))
  {
    forall k: nat ensures HasBit(Or(Or(a, b), c), k) == HasBit(Or(a, Or(b, c)), k) {
      OrBit(Or(a, b), c, k);
      OrBit(a, b, k);
      OrBit(a, Or(b, c), k);
      OrBit(b, c, k);
    }
    SameBits(Or(Or(a, b), c), Or(a, Or(b, c)));
  }
}
