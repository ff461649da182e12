# zigbee-steward control plane, modelled in Dafny

This project models two sequential cores of the zigbee-steward coordinator.

**The device registry** (`db/db.go`, module `Database`). Devices are kept in an in-memory map from long (IEEE) address to device record. A snapshot file on disk mirrors that map. Class `Db` holds the map (`store`) and the file (`file`: `None` while no file exists, otherwise the map it holds). `Write` copies the store into the file. `Read` merges the file's entries into the store, as `json.Unmarshal` does into an existing map. `Update` applies a change and then writes. Class `Devices` is the view that `Db.Devices()` returns. Its `Add` and `Remove` go through `Update`. `Get`, `Exists` and `GetByNetworkAddress` only read. `Db.Valid()` says the file holds exactly the store. Every mutation re-establishes it, including a `Remove` of an absent key. `Reopen` shows that a registry reloaded from that file holds the same store.

**The command-id index and dispatcher** (`functions/functions_cluster_local_smart.go`, module `Functions`).
- The constructor turns the cluster library into a two-level map: cluster id → (command type → command id). `BuildCommandIdCache` is the constructor's nested loop, proved equal to the function `CommandIdCacheOf` that specifies it. The lemmas beside it prove three things: which keys the index has, which id wins when a type repeats, and that a cached id is always one that the library declares.
- `LookupCommandId` is the two-level lookup.
- `IssueCommand` is the dispatch decision. It takes the frame builder, the coordinator's data request and the reply decoder as functions from arguments to outcome. It returns how the call ended (`ReturnedNil`, `ReturnedError`, `Panicked`) and the calls it made, in order (`Effect`). This makes these points provable:
  - which failure stops the call before any I/O;
  - the frame header and the request constants;
  - that no call is retried;
  - the outcome of every branch.

Go's `(value, ok)` results of the registry become `Option` (a nil device is `None`). `lookupCommandId` keeps its `(id, ok)` pair because the `0` it returns when nothing is found can be observed. `reflect.Type` becomes the datatype `CommandType`, which identifies a type by its name. The cluster library's Go maps become sequences. The order of a sequence stands for one iteration order of the Go map.

Two behaviours of the Go code that the contracts pin down:
- `GetByNetworkAddress` may return any matching record, because Go's map order is unspecified (db/db.go:106). Its contract promises only that the record it returns matches.
- When the transport succeeds but the reply does not decode, the decoder's `err` is declared inside the block (functions/functions_cluster_local_smart.go:63). So line 75 of that file returns the transport's `err`, which is nil. `IssueCommand` returns `ReturnedNil` in that case, after logging the reply.

## Model

| member | source | states |
|---|---|---|
| `Database.Db.New` | db/db.go:33-51 | Startup ends with the snapshot equal to the store. A missing file yields an empty store and an empty snapshot. An existing file's contents become the store. |
| `Database.Db.Update` | db/db.go:53-58 | The store becomes the update applied to the old store, and the snapshot then equals the new store. |
| `Database.Db.Read` | db/db.go:60-68 | The snapshot's entries are merged into the store, overriding entries with the same key. The snapshot is unchanged. |
| `Database.Db.Write` | db/db.go:70-79 | The snapshot becomes exactly the current store. Nothing else changes. |
| `Database.Db.Devices` | db/db.go:86-88 | Returns a device view bound to this registry. |
| `Database.Devices.constructor` | db/db.go:29-31 | The view is bound to the given registry. |
| `Database.Devices.Add` | db/db.go:90-94 | The record is filed under its long address, replacing any earlier one. `Get` then returns it, and every other key reads as before. The snapshot equals the store. Records stay filed under their own long address. |
| `Database.Devices.Get` | db/db.go:96-101 | Finds a record exactly when the long address is a key, and then returns that key's record. |
| `Database.Devices.GetByNetworkAddress` | db/db.go:103-112 | A found record is a stored record with the requested short address. Nothing is found exactly when no stored record has that short address. |
| `Database.Devices.Remove` | db/db.go:114-118 | The key is gone and every other key reads as before. Removing an absent key leaves the store unchanged. The snapshot equals the store either way. |
| `Database.Devices.Exists` | db/db.go:120-125 | Equals the found flag of `Get` for the same long address. |
| `Database.Reopen` | db/db.go:33-79 | A registry reloaded from the snapshot that a consistent registry left on disk holds the same store. |
| `Functions.BuildCommandIdCache` | functions/functions_cluster_local_smart.go:24-32 | The nested loops build exactly `CommandIdCacheOf(catalog)`. |
| `Functions.LocalSmartClusterFunctions.constructor` | functions/functions_cluster_local_smart.go:23-39 | The instance's index is the one built from the cluster library. |
| `Functions.CommandIdCacheKeys` | functions/functions_cluster_local_smart.go:26-27 | The index has an entry for a cluster exactly when the library describes that cluster. |
| `Functions.CommandIdCacheLastWins` | functions/functions_cluster_local_smart.go:26-31 | Each cluster's entry is the map built from that cluster's last descriptor. |
| `Functions.ClusterCacheKeys` | functions/functions_cluster_local_smart.go:29-31 | A cluster's map has a command type as a key exactly when the cluster receives a command of that type. |
| `Functions.ClusterCacheLastWins` | functions/functions_cluster_local_smart.go:29-31 | A type maps to the id of the last received command of that type. |
| `Functions.ClusterCacheDeclared` | functions/functions_cluster_local_smart.go:29-31 | In any iteration order, a cached id is the id of a received command of that type, never a default. |
| `Functions.LocalSmartClusterFunctions.LookupCommandId` | functions/functions_cluster_local_smart.go:78-88 | An absent cluster gives `(0, false)`. For a present cluster, found holds exactly when the command's type is cached, and the cached id is returned. Not found always comes with id 0. |
| `Functions.LookupDeclaredCommand` | functions/functions_cluster_local_smart.go:78-88 | After construction, a command of a type that a cluster declares resolves on that cluster to the declared id. |
| `Functions.LookupOnlyDeclared` | functions/functions_cluster_local_smart.go:78-88 | After construction, an undescribed cluster gives `(0, false)`. On a described cluster, found holds exactly when that cluster declares the type. A found id is one that the cluster declares for that type. |
| `Functions.ScopedPerCluster` | functions/functions_cluster_local_smart.go:26-30 | One command type declared by two clusters under different ids resolves to each cluster's own id. |
| `Functions.LocalSmartClusterFunctions.IssueCommand` | functions/functions_cluster_local_smart.go:41-76 | The outcome and the calls made, in order: build, send, decode, log. Each call is made at most once. A failed lookup errors with the cluster id and makes no call. The frame asks for a default response and is local and client-to-server, with the resolved id. A build error is returned before any I/O. The request carries the address, the endpoint, the literal 1, the cluster id, zero options, the literal 15 and the encoded frame, in that order. A transport error is returned unchanged. A decoded default response gives nil on success, otherwise an error with the command id, the cluster id and the status. Any other reply panics. An undecodable reply is logged and gives nil. |

## Left out

- The `sync.RWMutex` locking (db/db.go:54-55, 97-98 and the other readers): every operation is modelled as atomic.
- JSON marshalling, `atomic.WriteFile`, `ioutil.ReadFile` and `os.Stat`: the snapshot is the map itself, and its presence is `file != None`. `os.Stat` errors other than "does not exist" are not modelled.
- `filepath.Abs`: the constructor takes the resolved location. Its failure path is not modelled.
- The `log.Fatalf` paths: marshalling and writing are taken to succeed. `Read` requires the file to exist, which startup guarantees. A document whose `Devices` field is `null` is not modelled.
- Device records are stored by value. Go stores `*model.Device` pointers, so a caller can still change a record after `Add`; that aliasing is not captured. `model.Device` is not part of this model: only its two addresses are named, and its other fields are an opaque payload.
- `GetByNetworkAddress`: which of several matching records is returned is left open, as Go's map order leaves it.
- Go's random map iteration order in the constructor: the library is a sequence, and its order stands for one iteration order. `ClusterCacheDeclared` holds for every order.
- `frame.New()...Build()` and `bin.Encode` are one collaborator, `build`, which yields the encoded bytes or an error. `coordinator.DataRequest` and `zcl.ToZclIncomingMessage` are the collaborators `dataRequest` and `decode`. Their internals are not modelled.
- `coordinator.DataRequest`'s signature is not part of this model. Its third and sixth arguments are the literals 1 and 15; the model pins them by value and position, and what they mean is up to the coordinator.
- `reflect.TypeOf` of a nil command is not modelled: every command value has a `CommandType`.
- The text of the `spew` log message: only the fact that the reply is logged is recorded.
- functions/functions_cluster.go: three getters that return fields, with no behaviour to state.
