/** The four channels of a blit, and the cells their words lie in. */
module BlitChannels {
  import opened Bits
  import opened BlitConfig
  import opened BlitExact
  import opened BlitRefine
  import F = BlitFast

  datatype Channel = A | B | C | D

  predicate Used(c: Config, ch: Channel) {
    match ch case A => c.useA case B => c.useB case C => c.useC case D => c.useD
  }

  function Base(d: Data, ch: Channel): nat {
    match ch case A => d.src.apt case B => d.src.bpt case C => d.src.cpt case D => d.dpt
  }

  function Mod(c: Config, ch: Channel): int {
    match ch case A => c.amod case B => c.bmod case C => c.cmod case D => c.dmod
  }

  /** The cell of a channel's word in row `j`, column `i`. */
  function Spot(c: Config, d: Data, ch: Channel, j: nat, i: nat): nat
    requires c.span > 0
  {
    (At(c, Base(d, ch), Mod(c, ch), j, i) % c.span) / 2
  }

  /** The running pointer of a source. */
  function PointerOf(s: F.Sources, ch: Channel): nat {
    match ch case A => s.pa case B => s.pb case C => s.pc case D => 0
  }
}
