/** spr16.h: the server's record of one client. */
module ClientRecord {
  import opened Common
  import opened Blit

  const DMG_SLOTS := 32
  const MAX_CLIENTS := 128

  /** The 16-bit `sync_flags`, bit by bit: the three of SPRITESYNC_FLAG_MASK, and the value of the
      remaining ones. */
  datatype SyncFlags = SyncFlags(async: bool, vblank: bool, pageFlip: bool, other: nat)

  const NO_FLAGS := SyncFlags(false, false, false, 0)
  const ONLY_VBLANK := SyncFlags(false, true, false, 0)
  const ASYNC_VBLANK := SyncFlags(true, true, false, 0)

  /** `old |= flags`, where `flags` has no bit outside the mask. */
  function Merge(was: SyncFlags, flags: SyncFlags): SyncFlags
    requires flags.other == 0
  {
    SyncFlags(was.async || flags.async, was.vblank || flags.vblank, was.pageFlip || flags.pageFlip, was.other)
  }

  /** How many pending syncs ask for a vblank. */
  function Requests(flags: seq<SyncFlags>): nat {
    if flags == [] then 0
    else Requests(flags[..|flags| - 1]) + if flags[|flags| - 1].vblank then 1 else 0
  }

  /** `struct client`; `pixels` is the mapped sprite memory, null before registration, and
      `direct` the SPRITE_FLAG_DIRECT_SHM bit of its flags. */
  class Client {
    var next: Client?
    const socket: int
    var handshaking: bool
    var connected: bool
    var recvFdWait: bool
    var syncing: bool
    var syncFlags: SyncFlags
    var direct: bool
    var width: nat
    var height: nat
    var bpp: nat
    var shmFd: int
    var pixels: array?<Byte>
    const dmg: array<Region>
    var dmgCount: nat

    constructor (fd: int)
      ensures socket == fd && next == null
      ensures !handshaking && !connected && !recvFdWait && !syncing && syncFlags == NO_FLAGS && !direct
      ensures width == 0 && height == 0 && bpp == 0 && shmFd == -1 && pixels == null
      ensures fresh(dmg) && dmg.Length == DMG_SLOTS && dmgCount == 0
    {
      socket := fd;
      next := null;
      handshaking, connected, recvFdWait, syncing := false, false, false, false;
      syncFlags, direct := NO_FLAGS, false;
      width, height, bpp, shmFd, pixels := 0, 0, 0, -1, null;
      dmg := new Region[DMG_SLOTS](_ => Region(0, 0, 0, 0));
      dmgCount := 0;
    }

    ghost predicate SlotsValid()
      reads this`dmgCount
    {
      dmg.Length == DMG_SLOTS && dmgCount <= DMG_SLOTS
    }

    /** The pending damage slots. */
    ghost function Slots(): (s: seq<Region>)
      requires SlotsValid()
      reads this`dmgCount, dmg
      ensures |s| <= DMG_SLOTS
    {
      dmg[..dmgCount]
    }
  }
}
