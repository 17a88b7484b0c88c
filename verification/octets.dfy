/** The table of used second octets (dind/docker.go). */
module Octets {

  /** The least octet of 1..255 that is not used, or 256 when all are. */
  function LeastFree(used: set<nat>, from: nat := 1): (r: nat)
    requires 1 <= from <= 256
    ensures from <= r <= 256
    ensures r < 256 ==> r !in used
    ensures forall i | from <= i < r :: i in used
    decreases 256 - from
  {
    if from == 256 || from !in used then from else LeastFree(used, from + 1)
  }

  /** The allocator runs dry exactly when all 255 octets are taken. */
  lemma ExhaustedIff(used: set<nat>)
    ensures LeastFree(used) == 256 <==> forall o: nat | 1 <= o <= 255 :: o in used
  {
    if LeastFree(used) < 256 {
      assert LeastFree(used) !in used;
    }
  }

  /** The package-level array of flags. */
  class OctetTable {
    const flags: array<bool>

    constructor ()
      ensures fresh(flags) && flags.Length == 256 && Used() == {}
    {
      flags := new bool[256](_ => false);
    }

    ghost function Used(): set<nat>
      reads this, flags
    {
      set i: nat | i < flags.Length && flags[i]
    }

    /** markAndGetFirstAvailableHostSecondOctet; 256 stands for the panic. */
    method MarkFirst() returns (i: nat)
      requires flags.Length == 256
      modifies flags
      ensures i == LeastFree(old(Used()))
      ensures Used() == old(Used()) + if i < 256 then {i} else {}
    {
      i := 1;
      while i < flags.Length
        invariant 1 <= i <= 256
        invariant flags[..] == old(flags[..])
        invariant forall k | 1 <= k < i :: flags[k]
      {
        if !flags[i] {
          ghost var was := Used();
          flags[i] := true;
          assert Used() == was + {i};
          return;
        }
        i := i + 1;
      }
      assert Used() == old(Used());
    }

    /** usedHostSecondOctet[o] = false */
    method Release(o: nat)
      requires flags.Length == 256 && o < 256
      modifies flags
      ensures Used() == old(Used()) - {o}
    {
      flags[o] := false;
    }
  }
}
