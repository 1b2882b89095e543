/** kernel/fs/ext4.cpp: the old block map.  Twelve direct pointers, then trees of one, two
    and three levels of pointer blocks; a zero pointer is a hole. */
module Ext4Indirect {
  import opened Common
  import opened Ext4Extents

  const DIRECT: nat := 12

  /** Pointer `i` of pointer block `t`; a hole has only holes in it, and a block outside
      the volume has nothing. */
  function Follow(bl: Blocks, t: nat, i: nat): Option<nat> {
    if t == 0 then Some(0)
    else if t < |bl| && i * 4 + 4 <= |bl[t]| then Some(Le32(bl[t], i * 4))
    else None
  }

  /** The pointer to block number `off` of a tree of `levels` levels: the blocks are
      numbered in base `per`, the last digit picks the pointer in the lowest block. */
  ghost function Pointer(bl: Blocks, per: nat, top: nat, levels: nat, off: nat): Option<nat>
    requires per > 0
    decreases levels
  {
    if levels == 0 then Some(top)
    else match Pointer(bl, per, top, levels - 1, off / per)
         case None => None
         case Some(t) => Follow(bl, t, off % per)
  }

  function Power(b: nat, k: nat): (r: nat)
    requires b > 0
    ensures r > 0
  {
    if k == 0 then 1 else Times(b, Power(b, k - 1))
  }

  function Times(a: nat, b: nat): (r: nat)
    requires a > 0 && b > 0
    ensures r == a * b && r > 0
  {
    Scale(a, 0, b);
    a * b
  }

  /** The same walk from the top: the first digit picks the pointer in the top block. */
  lemma {:induction false} FromTop(bl: Blocks, per: nat, top: nat, levels: nat, off: nat)
    requires per > 0 && levels > 0 && off < Power(per, levels)
    ensures Pointer(bl, per, top, levels, off) ==
            match Follow(bl, top, Div(off, Power(per, levels - 1)))
            case None => None
            case Some(t) => Pointer(bl, per, t, levels - 1, Mod(off, Power(per, levels - 1)))
    decreases levels
  {
    if levels > 1 {
      var m := Power(per, levels - 2);
      Digits(off, per, m);
      DivLess(off, per, Power(per, levels - 1));
      FromTop(bl, per, top, levels - 1, off / per);
    }
  }

  lemma DivLess(w: nat, b: nat, m: nat)
    requires b > 0 && w < Product(b, m)
    ensures Div(w, b) < m
  {
    var q := w / b;
    assert b * q <= w;
    if q > m { Scale(b, m, q); }
  }

  /** Where block `off`, counted from the trees of `levels` levels on, is; past the trees
      of three levels everything is a hole. */
  ghost function InTrees(bl: Blocks, per: nat, top: seq<byte>, levels: nat, off: nat): Option<nat>
    requires per > 0 && |top| >= 60 && 0 < levels <= 4
    decreases 4 - levels
  {
    if levels == 4 then Some(0)
    else if off < Power(per, levels) then Pointer(bl, per, Le32(top, 4 * (DIRECT - 1 + levels)), levels, off)
    else InTrees(bl, per, top, levels + 1, off - Power(per, levels))
  }

  /** Where the block map of an inode puts block `l`. */
  ghost function IndirectAt(bl: Blocks, per: nat, top: seq<byte>, l: nat): Option<nat>
    requires per > 0 && |top| >= 60
  {
    if l < DIRECT then Some(Le32(top, 4 * l)) else InTrees(bl, per, top, 1, l - DIRECT)
  }
}
