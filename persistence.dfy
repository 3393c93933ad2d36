/**
 * The in-memory store: a map from device id to the device and the
 * append-only list of its signatures, each stamped with the time it was
 * saved. Go keeps a pointer per device and mutates the record behind it;
 * here the map holds record values and every update reassigns the map.
 */
module Persistence {

  import opened Options
  import opened Uuids
  import opened Domain

  /** A saved chain entry and its `createdAt` stamp (a caller-supplied clock reading). */
  datatype StoredSignature = StoredSignature(signedData: SignedData, createdAt: nat)

  /** What the store keeps per device: the device and its signatures in insertion order. */
  datatype Record = Record(device: Device, signatures: seq<StoredSignature>)

  /** The signed data of a record's entries, in insertion order. */
  function Log(sigs: seq<StoredSignature>): (log: seq<SignedData>)
    ensures |log| == |sigs|
    ensures forall i :: 0 <= i < |sigs| ==> log[i] == sigs[i].signedData
  {
    seq(|sigs|, i requires 0 <= i < |sigs| => sigs[i].signedData)
  }

  /** Appending an entry appends its signed data to the log. */
  lemma LogAppend(sigs: seq<StoredSignature>, s: StoredSignature)
    ensures Log(sigs + [s]) == Log(sigs) + [s.signedData]
  {
    assert forall i :: 0 <= i < |sigs| ==> (sigs + [s])[i] == sigs[i];
  }

  // ---------------------------------------------------------------------
  // Which entry counts as the last one
  // ---------------------------------------------------------------------

  /**
   * The entry `GetLastSignature` picks: start with the first entry and move
   * on to a later one only when its stamp is strictly after the current pick.
   */
  function LatestIndex(sigs: seq<StoredSignature>): (k: nat)
    requires |sigs| > 0
    ensures k < |sigs|
    decreases |sigs|
  {
    if |sigs| == 1 then 0
    else
      var k := LatestIndex(sigs[..|sigs| - 1]);
      if sigs[|sigs| - 1].createdAt > sigs[k].createdAt then |sigs| - 1 else k
  }

  /** The pick carries a maximal stamp, and every entry before it has a strictly smaller one. */
  lemma {:induction false} LatestIndexIsFirstMaximum(sigs: seq<StoredSignature>)
    requires |sigs| > 0
    ensures var k := LatestIndex(sigs);
      && (forall j :: 0 <= j < |sigs| ==> sigs[j].createdAt <= sigs[k].createdAt)
      && (forall j :: 0 <= j < k ==> sigs[j].createdAt < sigs[k].createdAt)
    decreases |sigs|
  {
    if |sigs| > 1 {
      var init := sigs[..|sigs| - 1];
      LatestIndexIsFirstMaximum(init);
      assert forall j :: 0 <= j < |init| ==> sigs[j] == init[j];
    }
  }

  /** The first maximal entry is the only index with the property above. */
  lemma FirstMaximumUnique(sigs: seq<StoredSignature>, m: nat)
    requires m < |sigs|
    requires forall j :: 0 <= j < |sigs| ==> sigs[j].createdAt <= sigs[m].createdAt
    requires forall j :: 0 <= j < m ==> sigs[j].createdAt < sigs[m].createdAt
    ensures LatestIndex(sigs) == m
  {
    LatestIndexIsFirstMaximum(sigs);
  }

  /** Strictly increasing stamps: each entry saved after every earlier one. */
  predicate StrictlyIncreasing(sigs: seq<StoredSignature>) {
    forall i, j :: 0 <= i < j < |sigs| ==> sigs[i].createdAt < sigs[j].createdAt
  }

  /** Appending an entry stamped after every stored one keeps the stamps strictly increasing. */
  lemma AppendLaterKeepsIncreasing(sigs: seq<StoredSignature>, s: StoredSignature)
    requires StrictlyIncreasing(sigs)
    requires forall i :: 0 <= i < |sigs| ==> sigs[i].createdAt < s.createdAt
    ensures StrictlyIncreasing(sigs + [s])
  {
    var next := sigs + [s];
    forall i, j | 0 <= i < j < |next|
      ensures next[i].createdAt < next[j].createdAt
    {
      assert next[i] == sigs[i];
      if j < |sigs| {
        assert next[j] == sigs[j];
      }
    }
  }

  /**
   * The pick is the most recently appended entry exactly when that entry's
   * stamp is strictly later than every other: with a tie, an earlier entry wins.
   */
  lemma LatestIsLastIff(sigs: seq<StoredSignature>)
    requires |sigs| > 0
    ensures LatestIndex(sigs) == |sigs| - 1
        <==> forall j :: 0 <= j < |sigs| - 1 ==> sigs[j].createdAt < sigs[|sigs| - 1].createdAt
  {
    LatestIndexIsFirstMaximum(sigs);
    if forall j :: 0 <= j < |sigs| - 1 ==> sigs[j].createdAt < sigs[|sigs| - 1].createdAt {
      FirstMaximumUnique(sigs, |sigs| - 1);
    }
  }

  /** With strictly increasing stamps the pick is the most recently appended entry. */
  lemma LatestIsLastWhenIncreasing(sigs: seq<StoredSignature>)
    requires |sigs| > 0 && StrictlyIncreasing(sigs)
    ensures LatestIndex(sigs) == |sigs| - 1
  {
    LatestIsLastIff(sigs);
  }

  // ---------------------------------------------------------------------
  // The store
  // ---------------------------------------------------------------------

  /** A call that changes the store, as the store's call trace records it. */
  datatype StoreCall =
    | Create(device: Device)
    | Save(id: Uuid, data: SignedData, createdAt: nat)
    | Increment(id: Uuid)

  class InMemory {
    var storage: map<Uuid, Record>
    /** The state-changing calls made on the store, oldest first, whatever their outcome. */
    ghost var calls: seq<StoreCall>

    /** Every record is stored under its own device's id. */
    ghost predicate Valid()
      reads this
    {
      forall id :: id in storage ==> storage[id].device.id == id
    }

    /** `NewInMemory`: an empty store. */
    constructor()
      ensures storage == map[] && calls == [] && Valid()
    {
      storage := map[];
      calls := [];
    }

    /** Stores `device` under its id with no signatures, replacing any record already there. */
    method CreateDevice(device: Device) returns (err: Option<Error>)
      requires Valid()
      modifies this
      ensures Valid()
      ensures err == None
      ensures storage == old(storage)[device.id := Record(device, [])]
      ensures GetDevice(device.id) == Ok(device)
      ensures calls == old(calls) + [Create(device)]
    {
      storage := storage[device.id := Record(device, [])];
      calls := calls + [Create(device)];
      err := None;
    }

    /** Every stored device exactly once, in no particular order. */
    method GetDevices() returns (devices: seq<Device>)
      requires Valid()
      ensures |devices| == |storage|
      ensures forall i :: 0 <= i < |devices| ==> devices[i].id in storage && storage[devices[i].id].device == devices[i]
      ensures forall i, j :: 0 <= i < j < |devices| ==> devices[i].id != devices[j].id
      ensures forall id :: id in storage ==> storage[id].device in devices
    {
      devices := [];
      var remaining := storage.Keys;
      while remaining != {}
        invariant remaining <= storage.Keys
        invariant |devices| + |remaining| == |storage.Keys|
        invariant forall i :: 0 <= i < |devices| ==>
          devices[i].id in storage.Keys - remaining && storage[devices[i].id].device == devices[i]
        invariant forall i, j :: 0 <= i < j < |devices| ==> devices[i].id != devices[j].id
        invariant forall id :: id in storage.Keys - remaining ==> storage[id].device in devices
        decreases |remaining|
      {
        var id :| id in remaining;
        devices := devices + [storage[id].device];
        remaining := remaining - {id};
      }
    }

    /** The stored device, or "device not found". */
    function GetDevice(id: Uuid): (r: Result<Device>)
      reads this
      ensures r.Ok? <==> id in storage
      ensures r.Ok? ==> r.value == storage[id].device
      ensures r.Err? ==> r.error == DeviceNotFound
    {
      if id in storage then Ok(storage[id].device) else Err(DeviceNotFound)
    }

    /**
     * Appends `data`, stamped `createdAt`, to the device's signatures; an
     * unknown id is "device not found" and changes nothing.
     */
    method SaveSignature(id: Uuid, data: SignedData, createdAt: nat) returns (err: Option<Error>)
      requires Valid()
      modifies this
      ensures Valid()
      ensures id !in old(storage) ==> err == Some(DeviceNotFound) && storage == old(storage)
      ensures id in old(storage) ==> err == None && storage == old(storage)[id :=
        old(storage)[id].(signatures := old(storage)[id].signatures + [StoredSignature(data, createdAt)])]
      ensures calls == old(calls) + [Save(id, data, createdAt)]
    {
      calls := calls + [Save(id, data, createdAt)];
      if id !in storage {
        return Some(DeviceNotFound);
      }
      var record := storage[id];
      storage := storage[id := record.(signatures := record.signatures + [StoredSignature(data, createdAt)])];
      err := None;
    }

    /**
     * The signed data of the entry with the latest stamp, the first of them
     * on a tie; "device not found" or "no signatures found" otherwise.
     */
    method GetLastSignature(id: Uuid) returns (r: Result<SignedData>)
      ensures id !in storage ==> r == Err(DeviceNotFound)
      ensures id in storage && |storage[id].signatures| == 0 ==> r == Err(NoSignaturesFound)
      ensures id in storage && |storage[id].signatures| > 0 ==>
        r == Ok(storage[id].signatures[LatestIndex(storage[id].signatures)].signedData)
    {
      if id !in storage {
        return Err(DeviceNotFound);
      }
      var sigs := storage[id].signatures;
      if |sigs| == 0 {
        return Err(NoSignaturesFound);
      }
      var last := sigs[0];
      var i := 0;
      while i < |sigs|
        invariant 0 <= i <= |sigs|
        invariant last == sigs[LatestIndex(sigs[..if i == 0 then 1 else i])]
      {
        assert sigs[..i + 1][..i] == sigs[..i];
        if sigs[i].createdAt > last.createdAt {
          last := sigs[i];
        }
        i := i + 1;
      }
      assert sigs[..|sigs|] == sigs;
      r := Ok(last.signedData);
    }

    /** The signed data of every entry in insertion order, or "device not found". */
    method GetSignatures(id: Uuid) returns (r: Result<seq<SignedData>>)
      ensures id !in storage ==> r == Err(DeviceNotFound)
      ensures id in storage ==> r == Ok(Log(storage[id].signatures))
    {
      if id !in storage {
        return Err(DeviceNotFound);
      }
      var sigs := storage[id].signatures;
      var signatures := [];
      var i := 0;
      while i < |sigs|
        invariant 0 <= i <= |sigs|
        invariant signatures == Log(sigs[..i])
      {
        LogAppend(sigs[..i], sigs[i]);
        assert sigs[..i + 1] == sigs[..i] + [sigs[i]];
        signatures := signatures + [sigs[i].signedData];
        i := i + 1;
      }
      assert sigs[..|sigs|] == sigs;
      r := Ok(signatures);
    }

    /**
     * Advances the stored device's signature counter by one; an unknown id is
     * "device not found" and changes nothing. The signatures are untouched.
     */
    method IncrementSignatureCounter(id: Uuid) returns (err: Option<Error>)
      requires Valid()
      modifies this
      ensures Valid()
      ensures id !in old(storage) ==> err == Some(DeviceNotFound) && storage == old(storage)
      ensures id in old(storage) ==> err == None && storage == old(storage)[id :=
        old(storage)[id].(device := old(storage)[id].device.Incremented())]
      ensures calls == old(calls) + [Increment(id)]
    {
      calls := calls + [Increment(id)];
      if id !in storage {
        return Some(DeviceNotFound);
      }
      var record := storage[id];
      storage := storage[id := record.(device := record.device.Incremented())];
      err := None;
    }

    /**
     * The entry step of `RunTransaction`: it locks the record stored under
     * `id` before running the body, which dereferences a missing record.
     * `None` means the body may run (the caller runs it next, as one step);
     * a missing id is the nil-pointer panic and the body never runs.
     */
    method RunTransaction(id: Uuid) returns (err: Option<Error>)
      ensures err == None <==> id in storage
      ensures err.Some? ==> err.value == NilDereference
    {
      if id !in storage {
        return Some(NilDereference);
      }
      err := None;
    }
  }
}
