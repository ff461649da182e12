/**
 * The device registry: an in-memory map from long (IEEE) address to device record,
 * with a snapshot file that every mutation rewrites. The reader/writer lock is not
 * modelled: each operation is atomic here. The snapshot file is the `file` field
 * (`None` while no file exists); JSON encoding and the atomic rename are abstracted
 * to copying the map.
 */
module Database {
  import opened Wrappers

  /**
   * A device record. The registry reads only the two addresses; the record's other
   * fields are carried as an opaque payload.
   */
  datatype Device = Device(ieeeAddress: string, networkAddress: string, details: map<string, string>)

  type DeviceStore = map<string, Device>

  /** Every record is filed under its own long address. */
  ghost predicate KeyedByIeeeAddress(store: DeviceStore)
  {
    forall k :: k in store ==> store[k].ieeeAddress == k
  }

  /** No stored record carries the short address `networkAddress`. */
  ghost predicate NoDeviceAt(store: DeviceStore, networkAddress: string)
  {
    forall k :: k in store ==> store[k].networkAddress != networkAddress
  }

  class Db {
    /** The absolute path of the snapshot file. */
    const location: string
    /** The in-memory store (`ds.Devices`). */
    var store: DeviceStore
    /** The snapshot file: `None` while it does not exist, else the store it holds. */
    var file: Option<DeviceStore>

    /** Between operations the snapshot on disk is exactly the in-memory store. */
    ghost predicate Valid()
      reads this
    {
      file == Some(store)
    }

    /**
     * `New`: write an empty snapshot if none exists, then load the snapshot.
     * `disk` is the file found at `location` at startup.
     */
    constructor New(location: string, disk: Option<DeviceStore>)
      ensures this.location == location
      ensures Valid()
      ensures disk.None? ==> store == map[]
      ensures disk.Some? ==> store == disk.value
    {
      this.location := location;
      store := map[];
      file := disk;
      new;
      if !SnapshotExists() {
        Write();
      }
      Read();
      assert store == file.value;
    }

    /** `exists`: whether the snapshot file is present. */
    predicate SnapshotExists()
      reads this
    {
      file.Some?
    }

    /** `update`: apply the change to the store, then rewrite the snapshot. */
    method Update(updateFn: DeviceStore -> DeviceStore)
      modifies this
      ensures store == updateFn(old(store))
      ensures Valid()
    {
      store := updateFn(store);
      Write();
    }

    /** `read`: load the snapshot, merging its entries into the store as `json.Unmarshal` does. */
    method Read()
      requires file.Some?
      modifies this`store
      ensures store == old(store) + file.value
    {
      store := store + file.value;
    }

    /** `write`: replace the snapshot with the whole current store. */
    method Write()
      modifies this`file
      ensures file == Some(store)
    {
      file := Some(store);
    }

    /** `Devices`: the device view over this registry. */
    method Devices() returns (devices: Devices)
      ensures fresh(devices) && devices.db == this
    {
      devices := new Devices(this);
    }
  }

  /** The device operations, a view over one `Db`. */
  class Devices {
    const db: Db

    constructor (db: Db)
      ensures this.db == db
    {
      this.db := db;
    }

    /** `Add`: insert or replace the record filed under the device's long address. */
    method Add(device: Device)
      requires db.Valid()
      modifies db
      ensures db.store == old(db.store)[device.ieeeAddress := device]
      ensures db.Valid()
      ensures Get(device.ieeeAddress) == Some(device)
      ensures forall k :: k != device.ieeeAddress ==> Get(k) == old(Get(k))
      ensures KeyedByIeeeAddress(old(db.store)) ==> KeyedByIeeeAddress(db.store)
    {
      db.Update(store => store[device.ieeeAddress := device]);
    }

    /** `Get`: the record filed under `ieeeAddress`, if any. */
    function Get(ieeeAddress: string): (device: Option<Device>)
      reads db
      ensures device.Some? <==> ieeeAddress in db.store
      ensures device.Some? ==> device.value == db.store[ieeeAddress]
    {
      if ieeeAddress in db.store then Some(db.store[ieeeAddress]) else None
    }

    /**
     * `GetByNetworkAddress`: a scan of the store for a record with this short address.
     * Go's map order is unspecified, so which match is returned is left open.
     */
    method GetByNetworkAddress(networkAddress: string) returns (device: Option<Device>)
      ensures device.Some? ==> device.value in db.store.Values && device.value.networkAddress == networkAddress
      ensures device.None? <==> NoDeviceAt(db.store, networkAddress)
    {
      var unvisited := db.store.Keys;
      while unvisited != {}
        invariant unvisited <= db.store.Keys
        invariant forall k :: k in db.store && k !in unvisited ==> db.store[k].networkAddress != networkAddress
        decreases unvisited
      {
        var k :| k in unvisited;
        var d := db.store[k];
        if d.networkAddress == networkAddress {
          return Some(d);
        }
        unvisited := unvisited - {k};
      }
      return None;
    }

    /** `Remove`: delete the record filed under `ieeeAddress`; the snapshot is rewritten even if none was. */
    method Remove(ieeeAddress: string)
      requires db.Valid()
      modifies db
      ensures db.store == old(db.store) - {ieeeAddress}
      ensures db.Valid()
      ensures !Exists(ieeeAddress)
      ensures forall k :: k != ieeeAddress ==> Get(k) == old(Get(k))
      ensures ieeeAddress !in old(db.store) ==> db.store == old(db.store)
      ensures KeyedByIeeeAddress(old(db.store)) ==> KeyedByIeeeAddress(db.store)
    {
      db.Update((store: DeviceStore) => store - {ieeeAddress});
    }

    /** `Exists`: whether a record is filed under `ieeeAddress`; agrees with `Get`. */
    predicate Exists(ieeeAddress: string)
      reads db
      ensures Exists(ieeeAddress) <==> Get(ieeeAddress).Some?
    {
      ieeeAddress in db.store
    }
  }

  /**
   * Durability: a registry reopened from the snapshot that a valid registry left on
   * disk holds the same store.
   */
  method Reopen(db: Db) returns (reopened: Db)
    requires db.Valid()
    ensures reopened.location == db.location
    ensures reopened.store == db.store
  {
    reopened := new Db.New(db.location, db.file);
  }

  /**
   * An add / find / remove walk-through: add one device, find it by either address,
   * remove it, and find an empty snapshot on disk.
   */
  method AddFindRemoveExample()
  {
    var db := new Db.New("/var/lib/steward/db.json", None);
    var devices := db.Devices();
    var d := Device("00:11:22:33:44:55:66:77", "0x1234", map[]);
    devices.Add(d);
    assert devices.Get("00:11:22:33:44:55:66:77") == Some(d);
    var byShort := devices.GetByNetworkAddress("0x1234");
    assert byShort == Some(d);
    devices.Remove("00:11:22:33:44:55:66:77");
    assert !devices.Exists("00:11:22:33:44:55:66:77");
    byShort := devices.GetByNetworkAddress("0x1234");
    assert byShort == None;
    assert db.file == Some(map[]);
  }
}
