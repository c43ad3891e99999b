/** The profile directory in sector 0: `validate_directory` and `build_directory`. */
module Directory {
  import opened Bytes
  import opened Sector
  import opened Profile

  /** `PROFILE_DIRECTORY_ENABLE_OFFSETS`. */
  function EnableOffset(profile: nat): nat
    requires 1 <= profile <= 5
  {
    4 * profile - 2
  }

  datatype DirectoryError = BadSize | BadCrc | ChangedOutsideFlags | MustStayEnabled | BadFlag | BadProfileSet

  /** The bytes the program may change: three flags and the checksum. */
  predicate Managed(i: nat) {
    i in {0x0A, 0x0E, 0x12, SECTOR_SIZE - 2, SECTOR_SIZE - 1}
  }

  predicate UnchangedOutside(data: seq<byte>, golden: seq<byte>) {
    forall i: nat :: i < |data| && i < |golden| && !Managed(i) ==> data[i] == golden[i]
  }

  predicate FlagsOk(data: seq<byte>)
    requires |data| == SECTOR_SIZE
  {
    data[0x02] == 1 && data[0x06] == 1 && data[0x0A] <= 1 && data[0x0E] <= 1 && data[0x12] <= 1
  }

  /** What `validate_directory` demands. */
  predicate DirectoryOk(data: seq<byte>, golden: seq<byte>) {
    |data| == SECTOR_SIZE && SectorCrcOk(data) && UnchangedOutside(data, golden) && FlagsOk(data)
  }

  predicate Enabled(data: seq<byte>, profile: nat) {
    1 <= profile <= 5 && |data| == SECTOR_SIZE && data[EnableOffset(profile)] == 1
  }

  function EnabledUpTo(data: seq<byte>, n: nat): seq<nat> {
    if n == 0 then [] else EnabledUpTo(data, n - 1) + if Enabled(data, n) then [n] else []
  }

  lemma {:induction false} EnabledMembers(data: seq<byte>, n: nat, p: nat)
    ensures p in EnabledUpTo(data, n) <==> p <= n && Enabled(data, p)
  {
    if n > 0 {
      EnabledMembers(data, n - 1, p);
    }
  }

  lemma FlagsAre(data: seq<byte>)
    requires |data| == SECTOR_SIZE
    ensures FlagsOk(data)
       <==> ((forall p :: 1 <= p < 3 ==> data[EnableOffset(p)] == 1) &&
             (forall p :: 1 <= p < 6 ==> data[EnableOffset(p)] <= 1))
  {
    assert EnableOffset(1) == 0x02 && EnableOffset(2) == 0x06 && EnableOffset(3) == 0x0A;
    assert EnableOffset(4) == 0x0E && EnableOffset(5) == 0x12;
    if (forall p :: 1 <= p < 3 ==> data[EnableOffset(p)] == 1) &&
       forall p :: 1 <= p < 6 ==> data[EnableOffset(p)] <= 1
    {
      assert data[EnableOffset(1)] == 1 && data[EnableOffset(2)] == 1;
      assert data[EnableOffset(3)] <= 1 && data[EnableOffset(4)] <= 1 && data[EnableOffset(5)] <= 1;
    }
  }

  /** The scan for changed bytes the program does not manage. */
  method HasUnexpectedChange(data: seq<byte>, golden: seq<byte>) returns (found: bool)
    ensures found <==> !UnchangedOutside(data, golden)
  {
    hide Managed;
    var i := 0;
    while i < |data| && i < |golden|
      invariant 0 <= i <= |data|
      invariant forall j: nat :: j < i && j < |golden| && !Managed(j) ==> data[j] == golden[j]
    {
      if data[i] != golden[i] && !Managed(i) {
        return true;
      }
      i := i + 1;
    }
    return false;
  }

  /** `validate_directory`: the enabled profiles, or the reason for refusing. */
  method ValidateDirectory(data: seq<byte>, golden: seq<byte>) returns (r: Result<seq<nat>, DirectoryError>)
    ensures r.Ok? <==> DirectoryOk(data, golden)
    ensures r.Ok? ==> r.value == EnabledUpTo(data, 5)
  {
    hide SectorCrcOk;
    hide Managed;
    hide UnchangedOutside;
    hide FlagsOk;
    if |data| != SECTOR_SIZE {
      return Err(BadSize);
    }
    if !SectorCrcOk(data) {
      return Err(BadCrc);
    }
    var unexpected := HasUnexpectedChange(data, golden);
    if unexpected {
      return Err(ChangedOutsideFlags);
    }
    for profile := 1 to 3
      invariant forall p :: 1 <= p < profile ==> data[EnableOffset(p)] == 1
    {
      if data[EnableOffset(profile)] != 1 {
        FlagsAre(data);
        return Err(MustStayEnabled);
      }
    }
    var enabled: seq<nat> := [];
    for profile := 1 to 6
      invariant enabled == EnabledUpTo(data, profile - 1)
      invariant forall p :: 1 <= p < profile ==> data[EnableOffset(p)] <= 1
    {
      var value := data[EnableOffset(profile)];
      if value > 1 {
        FlagsAre(data);
        return Err(BadFlag);
      }
      if value == 1 {
        enabled := enabled + [profile];
      }
    }
    FlagsAre(data);
    return Ok(enabled);
  }

  /** What `build_directory` returns: flags 3 to 5 set from `enabled`, the rest of the
      baseline directory kept, and a fresh checksum. */
  ghost predicate DirectoryFor(data: seq<byte>, golden: seq<byte>, enabled: set<nat>) {
    DirectoryOk(data, golden) && Enabled(data, 1) && Enabled(data, 2) &&
    forall p :: 3 <= p <= 5 ==> (Enabled(data, p) <==> p in enabled)
  }

  /** The two flags the program never touches are set in the baseline. */
  predicate BaseEnabled(golden: seq<byte>) {
    |golden| == SECTOR_SIZE && golden[0x02] == 1 && golden[0x06] == 1
  }

  /** `build_directory`. It succeeds exactly on a full-size baseline page whose
      profiles 1 and 2 are enabled. */
  method BuildDirectory(golden: seq<byte>, enabled: set<nat>) returns (r: Result<seq<byte>, DirectoryError>)
    ensures r.Ok? <==> enabled <= {1, 2, 3, 4, 5} && BaseEnabled(golden)
    ensures r.Ok? ==> DirectoryFor(r.value, golden, enabled)
  {
    if !(enabled <= {1, 2, 3, 4, 5}) {
      return Err(BadProfileSet);
    }
    if |golden| != SECTOR_SIZE {
      return Err(BadSize);
    }
    var out := new byte[SECTOR_SIZE](i requires 0 <= i < SECTOR_SIZE => golden[i]);
    for profile := 3 to 6
      invariant forall i :: 0 <= i < SECTOR_SIZE && i !in {0x0A, 0x0E, 0x12} ==> out[i] == golden[i]
      invariant forall p :: 3 <= p < profile ==> out[EnableOffset(p)] == if p in enabled then 1 else 0
    {
      out[EnableOffset(profile)] := if profile in enabled then 1 else 0;
    }
    assert out[EnableOffset(3)] <= 1 && out[EnableOffset(4)] <= 1 && out[EnableOffset(5)] <= 1;
    var result := WithCrc(out[..]);
    KeptByCrc(out[..], golden);
    var checked := ValidateDirectory(result, golden);
    match checked {
      case Err(e) => return Err(e);
      case Ok(_) => return Ok(result);
    }
  }

  lemma KeptByCrc(out: seq<byte>, golden: seq<byte>)
    requires |out| == |golden| == SECTOR_SIZE
    requires forall i :: 0 <= i < SECTOR_SIZE && i !in {0x0A, 0x0E, 0x12} ==> out[i] == golden[i]
    ensures UnchangedOutside(WithCrc(out), golden)
    ensures forall i :: 0 <= i < PAGE_DATA_SIZE ==> WithCrc(out)[i] == out[i]
  {
    forall i: nat | i < PAGE_DATA_SIZE
      ensures WithCrc(out)[i] == out[i]
    {
      assert WithCrc(out)[..PAGE_DATA_SIZE][i] == out[..PAGE_DATA_SIZE][i];
    }
  }

  /** `build_directory` leaves no choice: the staging directory is the same in every run. */
  lemma DirectoryIsUnique(a: seq<byte>, b: seq<byte>, golden: seq<byte>, enabled: set<nat>)
    requires DirectoryFor(a, golden, enabled) && DirectoryFor(b, golden, enabled) && |golden| == SECTOR_SIZE
    ensures a == b
  {
    forall i: nat | i < PAGE_DATA_SIZE
      ensures a[i] == b[i]
    {
      if i in {0x0A, 0x0E, 0x12} {
        var p := (i + 2) / 4;
        assert EnableOffset(p) == i && 3 <= p <= 5;
        assert Enabled(a, p) <==> Enabled(b, p);
      }
    }
    assert a[..PAGE_DATA_SIZE] == b[..PAGE_DATA_SIZE];
    assert a == a[..PAGE_DATA_SIZE] + [a[253], a[254]];
    assert b == b[..PAGE_DATA_SIZE] + [b[253], b[254]];
  }
}
