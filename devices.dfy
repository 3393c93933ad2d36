/**
 * The device service: creates devices over a key-pair generator and a
 * store, and forwards the remaining calls to the store unchanged.
 */
module Devices {

  import opened Options
  import opened Uuids
  import opened Domain
  import opened Persistence

  class DeviceService {
    const persister: InMemory
    const generator: KeyPairGenerator

    constructor(persister: InMemory, generator: KeyPairGenerator)
      ensures this.persister == persister && this.generator == generator
    {
      this.persister := persister;
      this.generator := generator;
    }

    /**
     * Generates a key pair for `algorithm` from the random octets `entropy`
     * (any tag is passed on, none is checked here), builds a device with the
     * fresh id `newId`, counter 0, that key pair, algorithm and label, and
     * stores it. A generator error is returned unchanged and the store is not
     * touched.
     */
    method CreateDevice(deviceLabel: Option<string>, algorithm: Algorithm, newId: Uuid, entropy: nat) returns (r: Result<Device>)
      requires persister.Valid()
      modifies persister
      ensures persister.Valid()
      ensures generator.generateKeyPair(algorithm, entropy).Err? ==>
        && r == Err(generator.generateKeyPair(algorithm, entropy).error)
        && persister.storage == old(persister.storage)
        && persister.calls == old(persister.calls)
      ensures generator.generateKeyPair(algorithm, entropy).Ok? ==>
        var device := Device(newId, 0, generator.generateKeyPair(algorithm, entropy).value, algorithm, deviceLabel);
        && r == Ok(device)
        && persister.storage == old(persister.storage)[newId := Record(device, [])]
        && persister.calls == old(persister.calls) + [Create(device)]
    {
      var keyPair := generator.generateKeyPair(algorithm, entropy);
      match keyPair
      case Err(e) =>
        return Err(e);
      case Ok(kp) =>
        var device := Device(newId, 0, kp, algorithm, deviceLabel);
        var err := persister.CreateDevice(device);
        match err
        case Some(e) =>
          return Err(e);
        case None =>
          return Ok(device);
    }

    /** The store's increment, result unchanged. */
    method IncrementSignatureCounter(id: Uuid) returns (err: Option<Error>)
      requires persister.Valid()
      modifies persister
      ensures persister.Valid()
      ensures id !in old(persister.storage) ==> err == Some(DeviceNotFound) && persister.storage == old(persister.storage)
      ensures id in old(persister.storage) ==> err == None && persister.storage == old(persister.storage)[id :=
        old(persister.storage)[id].(device := old(persister.storage)[id].device.Incremented())]
      ensures persister.calls == old(persister.calls) + [Increment(id)]
    {
      err := persister.IncrementSignatureCounter(id);
    }

    /** The store's device list; the in-memory store never fails here. */
    method GetDevices() returns (r: Result<seq<Device>>)
      requires persister.Valid()
      ensures r.Ok?
      ensures |r.value| == |persister.storage|
      ensures forall i :: 0 <= i < |r.value| ==>
        r.value[i].id in persister.storage && persister.storage[r.value[i].id].device == r.value[i]
      ensures forall i, j :: 0 <= i < j < |r.value| ==> r.value[i].id != r.value[j].id
      ensures forall id :: id in persister.storage ==> persister.storage[id].device in r.value
    {
      var devices := persister.GetDevices();
      r := Ok(devices);
    }

    /** The store's lookup, result unchanged. */
    function GetDevice(id: Uuid): (r: Result<Device>)
      reads persister
      ensures r.Ok? <==> id in persister.storage
      ensures r.Ok? ==> r.value == persister.storage[id].device
      ensures r.Err? ==> r.error == DeviceNotFound
    {
      persister.GetDevice(id)
    }
  }
}
