/** The producer's scanner as the runtime keeps it: a fixed carry buffer, the
    stream offset of its first byte, and the permanent overflow flag
    (`gx_scan_chunk`, `gx_pipe_try_resume`). */
module ScanDevice {
  import opened Bytes
  import opened GxDecode
  import opened GxScanner
  import opened CommandFifo
  import opened GxPipeline

  class Scanner {
    const carry: array<u8>
    var held: nat
    var pos: int
    var poisoned: bool

    ghost predicate Valid()
      reads `held
    {
      carry.Length == CARRY && held <= CARRY
    }

    function Carried(): seq<u8>
      requires Valid()
      reads this, carry
    {
      carry[..held]
    }

    constructor ()
      ensures Valid() && fresh(carry) && Carried() == [] && pos == 0 && !poisoned
    {
      carry := new u8[CARRY](i => 0);
      held, pos, poisoned := 0, 0, false;
    }

    method Fill(bytes: seq<u8>)
      requires Valid() && held + |bytes| <= CARRY
      modifies carry, `held
      ensures Valid() && Carried() == old(Carried()) + bytes
    {
      ghost var before := Carried();
      for i := 0 to |bytes|
        invariant held == old(held) && carry[..held + i] == before + bytes[..i]
      {
        carry[held + i] := bytes[i];
        assert carry[..held + i] == before + bytes[..i];
      }
      held := held + |bytes|;
    }

    method Shift(taken: nat)
      requires Valid() && taken <= held
      modifies carry, `held
      ensures Valid() && Carried() == old(Carried())[taken..]
    {
      ghost var before := Carried();
      for i := 0 to held - taken
        invariant held == old(held) && carry[..i] == before[taken..taken + i]
        invariant carry[taken + i..held] == before[taken + i..]
      {
        assert carry[taken + i] == carry[taken + i..held][0] == before[taken + i];
        assert carry[taken + i + 1..held] == carry[taken + i..held][1..];
        carry[i] := carry[taken + i];
      }
      held := held - taken;
    }

    /** Step over whole commands.  The result is the functional scan of what is
        carried: bytes passed, end offset of the last fence, stopped at a draw. */
    method Walk() returns (off: nat, fence: int, poison: bool)
      requires Valid()
      ensures var scan := Scan(Carried());
              && off == scan.used && poison == scan.poison
              && fence == if scan.fence == 0 then 0 else pos + scan.fence
    {
      hide ScanCommand, Scan;
      ghost var all := Carried();
      var last := 0;
      off, poison := 0, false;
      assert all[0..] == all;
      while true
        invariant off <= held && last <= off && !poison
        invariant var rest := Scan(all[off..]);
                  Scan(all) == Scanned(off + rest.used, if rest.fence != 0 then off + rest.fence else last, rest.poison)
        decreases held - off
      {
        ScanStep(all[off..]);
        match ScanCommand(carry[off..held]) {
          case Partial =>
            break;
          case Poison =>
            poison := true;
            break;
          case Whole(size, isFence) =>
            assert all[off..][size..] == all[off + size..];
            off := off + size;
            if isFence {
              last := off;
            }
        }
      }
      fence := if last == 0 then 0 else pos + last;
    }

    /** Append a chunk and scan.  A chunk that does not fit poisons the scanner
        for good and is not taken. */
    method ScanChunk(chunk: seq<u8>) returns (fence: int, poison: bool)
      requires Valid() && |chunk| == CHUNK
      modifies carry, `held, `pos, `poisoned
      ensures Valid()
      ensures old(held) + CHUNK > CARRY ==>
                poison && poisoned && fence == 0 && Carried() == old(Carried()) && pos == old(pos)
      ensures old(held) + CHUNK <= CARRY ==>
                var all := old(Carried()) + chunk;
                && poisoned == old(poisoned) && poison == Scan(all).poison
                && Carried() == all[Scan(all).used..] && pos == old(pos) + Scan(all).used
                && fence == if Scan(all).fence == 0 then 0 else old(pos) + Scan(all).fence
    {
      hide Scan;
      if held + CHUNK > CARRY {
        poisoned := true;
        return 0, true;
      }
      Fill(chunk);
      var off;
      off, fence, poison := Walk();
      if off > 0 {
        Shift(off);
        pos := pos + off;
      } else {
        assert Carried()[0..] == Carried();
      }
    }

    /** Adopt the decoder's leftover as the carry if one more gather fits behind it. */
    method TryResume(leftover: seq<u8>, produced: int) returns (resumed: bool)
      requires Valid()
      modifies carry, `held, `pos
      ensures Valid()
      ensures resumed <==> |leftover| <= CARRY - CHUNK
      ensures resumed ==> Carried() == leftover && pos == produced - |leftover|
      ensures !resumed ==> Carried() == old(Carried()) && pos == old(pos)
    {
      resumed := CHUNK <= CARRY && |leftover| <= CARRY - CHUNK;
      if resumed {
        held := 0;
        Fill(leftover);
        pos := produced - |leftover|;
      }
    }
  }
}
