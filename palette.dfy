/** The colour table a session builds once at creation: k_num_colors entries,
    each packed from pseudo-random draws with the source's literal masks. The
    draws come from the C library's `rand` after seeding it with 0x55941197;
    the generator is not part of this model, so the table builder takes the
    draws as a parameter. */
module Palette {

  /** `k_num_colors`: the number of entries of the colour table. */
  const NumColors: nat := 512

  /** The number of draws one table entry consumes. */
  const DrawsPerColor: nat := 3

  /** The colour stored for pixels that never escape. */
  const InteriorColor: bv32 := 0

  /** The three `rand()` calls of one table entry are operands of `|`, so C
      leaves their evaluation order unspecified. A `DrawOrder` says which of
      the three consecutive draws of an entry feeds the red, the green and the
      blue mask. */
  datatype DrawOrder = DrawOrder(red: nat, green: nat, blue: nat)

  predicate ValidOrder(o: DrawOrder)
  {
    o.red < DrawsPerColor && o.green < DrawsPerColor && o.blue < DrawsPerColor &&
    o.red != o.green && o.green != o.blue && o.red != o.blue
  }

  /** One entry, with the masks as the source writes them: `&` binds looser
      than `<<`, so each draw is masked with a shifted 0xff (the draw itself is
      not shifted), and the low byte is forced to 0xff. */
  function Pack(red: bv32, green: bv32, blue: bv32): (c: bv32)
    ensures c & 0xFF00_0000 == red & 0xFF00_0000
    ensures c & 0x00FF_0000 == green & 0x00FF_0000
    ensures c & 0x0000_FF00 == blue & 0x0000_FF00
    ensures c & 0x0000_00FF == 0xFF
    ensures c != InteriorColor
  {
    (red & (0xff << 24)) | (green & (0xff << 16)) | (blue & (0xff << 8)) | 0xff
  }

  /** Entry i of the table: built from draws 3i, 3i+1 and 3i+2. */
  function Entry(draws: seq<bv32>, order: DrawOrder, i: nat): bv32
    requires ValidOrder(order) && DrawsPerColor * i + DrawsPerColor <= |draws|
  {
    var base := DrawsPerColor * i;
    Pack(draws[base + order.red], draws[base + order.green], draws[base + order.blue])
  }

  /** The whole table, for the draws the generator yields after seeding. */
  function ColorTable(draws: seq<bv32>, order: DrawOrder): (t: seq<bv32>)
    requires ValidOrder(order) && |draws| == DrawsPerColor * NumColors
    ensures |t| == NumColors
    ensures forall i :: 0 <= i < |t| ==> t[i] & 0xFF == 0xFF && t[i] != InteriorColor
  {
    seq(NumColors, i requires 0 <= i < NumColors => Entry(draws, order, i))
  }

  /** A predicate on a table: every entry is fully opaque, so none of them is
      the interior colour. */
  predicate Opaque(t: seq<bv32>)
  {
    forall i :: 0 <= i < |t| ==> t[i] & 0xFF == 0xFF
  }

  /** Every table the builder produces is opaque, and then no entry is the
      interior colour. */
  lemma TableIsOpaque(draws: seq<bv32>, order: DrawOrder)
    requires ValidOrder(order) && |draws| == DrawsPerColor * NumColors
    ensures Opaque(ColorTable(draws, order))
    ensures InteriorColor !in ColorTable(draws, order)
  {
  }

  /** The table depends on nothing but the draws and their order: two tables
      built from equal draws agree entry by entry, and each entry depends only
      on its own three draws. */
  lemma EntryDependsOnOwnDraws(d1: seq<bv32>, d2: seq<bv32>, order: DrawOrder, i: nat)
    requires ValidOrder(order) && |d1| == |d2| == DrawsPerColor * NumColors && i < NumColors
    requires d1[DrawsPerColor * i .. DrawsPerColor * i + DrawsPerColor] ==
             d2[DrawsPerColor * i .. DrawsPerColor * i + DrawsPerColor]
    ensures ColorTable(d1, order)[i] == ColorTable(d2, order)[i]
  {
    var base := DrawsPerColor * i;
    var w1, w2 := d1[base .. base + DrawsPerColor], d2[base .. base + DrawsPerColor];
    assert w1[0] == w2[0] && w1[1] == w2[1] && w1[2] == w2[2];
  }
}
