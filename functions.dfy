/**
 * The local "smart" cluster functions: a per-cluster index from command type to
 * command id, built once from the cluster library, and `IssueCommand`, which resolves
 * a command's id, builds a frame, sends it and interprets the default response.
 *
 * The frame builder (with the binary encoder), the coordinator's data request and
 * the reply decoder are collaborators outside this model: `IssueCommand` takes each
 * as a function from its arguments to its outcome, and reports the calls it made as
 * a sequence of effects.
 */
module Functions {
  import opened Wrappers
  import opened Zcl

  /** `commandClusterCache`: one cluster's map from command type to command id. */
  type CommandClusterCache = map<CommandType, CommandId>

  type CommandIdCache = map<ClusterId, CommandClusterCache>

  // ---------------------------------------------------------------------------
  // The index as a function of the cluster library
  // ---------------------------------------------------------------------------

  /** Some received command of the cluster has type `t`. */
  ghost predicate Declares(received: seq<ReceivedCommand>, t: CommandType)
  {
    exists k :: 0 <= k < |received| && received[k].commandType == t
  }

  /** Entry `k` is the last one of its type, so its id is the one the index keeps. */
  ghost predicate LastOfType(received: seq<ReceivedCommand>, k: int)
    requires 0 <= k < |received|
  {
    forall j :: k < j < |received| ==> received[j].commandType != received[k].commandType
  }

  /** Some cluster of the library has id `c`. */
  ghost predicate Describes(catalog: seq<ClusterDescriptor>, c: ClusterId)
  {
    exists i :: 0 <= i < |catalog| && catalog[i].clusterId == c
  }

  /** Entry `i` is the last descriptor of its cluster, so its commands are the ones indexed. */
  ghost predicate LastOfCluster(catalog: seq<ClusterDescriptor>, i: int)
    requires 0 <= i < |catalog|
  {
    forall j :: i < j < |catalog| ==> catalog[j].clusterId != catalog[i].clusterId
  }

  /** The map the inner loop of the constructor builds for one cluster, entries taken in order. */
  function ClusterCacheOf(received: seq<ReceivedCommand>): CommandClusterCache
  {
    if received == [] then map[]
    else
      var last := received[|received| - 1];
      ClusterCacheOf(received[..|received| - 1])[last.commandType := last.commandId]
  }

  /** The cache the constructor builds from the whole library, clusters taken in order. */
  function CommandIdCacheOf(catalog: seq<ClusterDescriptor>): CommandIdCache
  {
    if catalog == [] then map[]
    else
      var last := catalog[|catalog| - 1];
      CommandIdCacheOf(catalog[..|catalog| - 1])[last.clusterId := ClusterCacheOf(last.received)]
  }

  /** A cluster's map is keyed by exactly the command types the cluster declares. */
  lemma {:induction false} ClusterCacheKeys(received: seq<ReceivedCommand>, t: CommandType)
    ensures t in ClusterCacheOf(received) <==> Declares(received, t)
  {
    if received != [] {
      var n := |received| - 1;
      var prefix := received[..n];
      ClusterCacheKeys(prefix, t);
      if Declares(received, t) && received[n].commandType != t {
        var k :| 0 <= k < |received| && received[k].commandType == t;
        assert prefix[k].commandType == t;
      }
      if Declares(prefix, t) {
        var k :| 0 <= k < |prefix| && prefix[k].commandType == t;
        assert received[k].commandType == t;
      }
    }
  }

  /** The map keeps, for each type, the id of the last received command of that type. */
  lemma {:induction false} ClusterCacheLastWins(received: seq<ReceivedCommand>, k: int)
    requires 0 <= k < |received| && LastOfType(received, k)
    ensures received[k].commandType in ClusterCacheOf(received)
    ensures ClusterCacheOf(received)[received[k].commandType] == received[k].commandId
  {
    var n := |received| - 1;
    if k < n {
      var prefix := received[..n];
      assert LastOfType(prefix, k) by {
        forall j | k < j < |prefix| ensures prefix[j].commandType != prefix[k].commandType {
          assert prefix[j] == received[j];
        }
      }
      ClusterCacheLastWins(prefix, k);
      assert received[n].commandType != received[k].commandType;
    }
  }

  /**
   * Whatever the order of the entries, an id the map holds for a type is one the
   * cluster declares for that type: never a default.
   */
  lemma {:induction false} ClusterCacheDeclared(received: seq<ReceivedCommand>, t: CommandType)
    requires t in ClusterCacheOf(received)
    ensures exists k :: 0 <= k < |received| && received[k] == ReceivedCommand(ClusterCacheOf(received)[t], t)
  {
    var n := |received| - 1;
    if received[n].commandType == t {
      assert received[n] == ReceivedCommand(ClusterCacheOf(received)[t], t);
    } else {
      var prefix := received[..n];
      ClusterCacheDeclared(prefix, t);
      var k :| 0 <= k < |prefix| && prefix[k] == ReceivedCommand(ClusterCacheOf(prefix)[t], t);
      assert received[k] == prefix[k];
    }
  }

  /** The cache is keyed by exactly the cluster ids the library describes. */
  lemma {:induction false} CommandIdCacheKeys(catalog: seq<ClusterDescriptor>, c: ClusterId)
    ensures c in CommandIdCacheOf(catalog) <==> Describes(catalog, c)
  {
    if catalog != [] {
      var n := |catalog| - 1;
      var prefix := catalog[..n];
      CommandIdCacheKeys(prefix, c);
      if Describes(catalog, c) && catalog[n].clusterId != c {
        var i :| 0 <= i < |catalog| && catalog[i].clusterId == c;
        assert prefix[i].clusterId == c;
      }
      if Describes(prefix, c) {
        var i :| 0 <= i < |prefix| && prefix[i].clusterId == c;
        assert catalog[i].clusterId == c;
      }
    }
  }

  /** Each cluster's entry is the map built from the last descriptor of that cluster. */
  lemma {:induction false} CommandIdCacheLastWins(catalog: seq<ClusterDescriptor>, i: int)
    requires 0 <= i < |catalog| && LastOfCluster(catalog, i)
    ensures catalog[i].clusterId in CommandIdCacheOf(catalog)
    ensures CommandIdCacheOf(catalog)[catalog[i].clusterId] == ClusterCacheOf(catalog[i].received)
  {
    var n := |catalog| - 1;
    if i < n {
      var prefix := catalog[..n];
      assert LastOfCluster(prefix, i) by {
        forall j | i < j < |prefix| ensures prefix[j].clusterId != prefix[i].clusterId {
          assert prefix[j] == catalog[j];
        }
      }
      CommandIdCacheLastWins(prefix, i);
      assert catalog[n].clusterId != catalog[i].clusterId;
    }
  }

  /**
   * The nested loops of `NewLocalSmartClusterFunctions`: for each cluster, start an
   * empty map under its id, then file each received command's type under it.
   */
  method BuildCommandIdCache(catalog: seq<ClusterDescriptor>) returns (ccc: CommandIdCache)
    ensures ccc == CommandIdCacheOf(catalog)
  {
    ccc := map[];
    var i := 0;
    while i < |catalog|
      invariant 0 <= i <= |catalog|
      invariant ccc == CommandIdCacheOf(catalog[..i])
    {
      var ci := catalog[i].clusterId;
      var received := catalog[i].received;
      ccc := ccc[ci := map[]];
      var j := 0;
      while j < |received|
        invariant 0 <= j <= |received|
        invariant ccc == CommandIdCacheOf(catalog[..i])[ci := ClusterCacheOf(received[..j])]
      {
        ccc := ccc[ci := ccc[ci][received[j].commandType := received[j].commandId]];
        assert received[..j + 1][..j] == received[..j];
        j := j + 1;
      }
      assert received[..j] == received;
      assert catalog[..i + 1][..i] == catalog[..i];
      i := i + 1;
    }
    assert catalog[..i] == catalog;
  }

  // ---------------------------------------------------------------------------
  // Lookups against the index a constructed instance holds
  // ---------------------------------------------------------------------------

  /**
   * After construction, a command whose type a cluster declares resolves on that
   * cluster to the declared id (the last one of that type, when several share it).
   */
  lemma LookupDeclaredCommand(
    f: LocalSmartClusterFunctions, catalog: seq<ClusterDescriptor>, i: int, k: int, command: Command)
    requires f.commandIdCache == CommandIdCacheOf(catalog)
    requires 0 <= i < |catalog| && LastOfCluster(catalog, i)
    requires 0 <= k < |catalog[i].received| && LastOfType(catalog[i].received, k)
    requires command.commandType == catalog[i].received[k].commandType
    ensures f.LookupCommandId(catalog[i].clusterId, command) == (catalog[i].received[k].commandId, true)
  {
    CommandIdCacheLastWins(catalog, i);
    ClusterCacheLastWins(catalog[i].received, k);
  }

  /**
   * After construction, a lookup on a cluster the library does not describe, or of a
   * type the cluster does not declare, is `(0, false)`; a lookup that succeeds yields
   * an id the cluster declares for the command's type.
   */
  lemma LookupOnlyDeclared(
    f: LocalSmartClusterFunctions, catalog: seq<ClusterDescriptor>, clusterId: ClusterId, command: Command)
    requires f.commandIdCache == CommandIdCacheOf(catalog)
    ensures !Describes(catalog, clusterId) ==> f.LookupCommandId(clusterId, command) == (0, false)
    ensures forall i :: 0 <= i < |catalog| && catalog[i].clusterId == clusterId && LastOfCluster(catalog, i) ==>
              (f.LookupCommandId(clusterId, command).1 <==> Declares(catalog[i].received, command.commandType))
    ensures f.LookupCommandId(clusterId, command).1 ==>
              exists i, k :: 0 <= i < |catalog| && catalog[i].clusterId == clusterId &&
                             0 <= k < |catalog[i].received| &&
                             catalog[i].received[k] == ReceivedCommand(f.LookupCommandId(clusterId, command).0, command.commandType)
  {
    CommandIdCacheKeys(catalog, clusterId);
    forall i | 0 <= i < |catalog| && catalog[i].clusterId == clusterId && LastOfCluster(catalog, i)
      ensures f.LookupCommandId(clusterId, command).1 <==> Declares(catalog[i].received, command.commandType)
    {
      CommandIdCacheLastWins(catalog, i);
      ClusterCacheKeys(catalog[i].received, command.commandType);
    }
    if f.LookupCommandId(clusterId, command).1 {
      var i := LastIndexOfCluster(catalog, clusterId);
      CommandIdCacheLastWins(catalog, i);
      ClusterCacheDeclared(catalog[i].received, command.commandType);
    }
  }

  /** A cluster the library describes has a last descriptor. */
  lemma LastIndexOfCluster(catalog: seq<ClusterDescriptor>, clusterId: ClusterId) returns (i: int)
    requires Describes(catalog, clusterId)
    ensures 0 <= i < |catalog| && catalog[i].clusterId == clusterId && LastOfCluster(catalog, i)
  {
    var n := |catalog| - 1;
    if catalog[n].clusterId == clusterId {
      i := n;
    } else {
      var prefix := catalog[..n];
      var i0 :| 0 <= i0 < |catalog| && catalog[i0].clusterId == clusterId;
      assert prefix[i0].clusterId == clusterId;
      i := LastIndexOfCluster(prefix, clusterId);
      assert catalog[i] == prefix[i];
    }
  }

  /**
   * The index is scoped per cluster: one command type declared by two clusters under
   * different ids resolves to each cluster's own id.
   */
  lemma ScopedPerCluster(
    f: LocalSmartClusterFunctions, catalog: seq<ClusterDescriptor>, i: int, k: int, j: int, l: int, command: Command)
    requires f.commandIdCache == CommandIdCacheOf(catalog)
    requires 0 <= i < |catalog| && LastOfCluster(catalog, i)
    requires 0 <= j < |catalog| && LastOfCluster(catalog, j)
    requires 0 <= k < |catalog[i].received| && LastOfType(catalog[i].received, k)
    requires 0 <= l < |catalog[j].received| && LastOfType(catalog[j].received, l)
    requires command.commandType == catalog[i].received[k].commandType == catalog[j].received[l].commandType
    requires catalog[i].received[k].commandId != catalog[j].received[l].commandId
    ensures catalog[i].clusterId != catalog[j].clusterId
    ensures f.LookupCommandId(catalog[i].clusterId, command).0 != f.LookupCommandId(catalog[j].clusterId, command).0
  {
    LookupDeclaredCommand(f, catalog, i, k, command);
    LookupDeclaredCommand(f, catalog, j, l, command);
  }

  // ---------------------------------------------------------------------------
  // Dispatch
  // ---------------------------------------------------------------------------

  /** The errors `IssueCommand` reports. */
  datatype Error =
    | LookupFailed(clusterId: ClusterId)
      // "failed to look up commandId on cluster [..]"
    | CommandFailed(commandId: CommandId, clusterId: ClusterId, status: ZclStatus)
      // "unable to run command [..] on cluster [..]. Status: [..]"
    | External(message: string)
      // an error raised by the frame builder or the coordinator

  /** How a call of `IssueCommand` ends: it returns nil, returns an error, or panics. */
  datatype IssueOutcome = ReturnedNil | ReturnedError(error: Error) | Panicked

  /** A call `IssueCommand` makes to a collaborator, in the order it makes them. */
  datatype Effect =
    | BuildFrame(spec: FrameSpec)
    | SendDataRequest(request: DataRequest)
    | DecodeResponse(response: AfIncomingMessage)
    | LogUnsupportedResponse(response: AfIncomingMessage)

  /** The position each kind of effect takes in a call: build, send, decode, log. */
  function Stage(e: Effect): nat
  {
    match e
    case BuildFrame(_) => 0
    case SendDataRequest(_) => 1
    case DecodeResponse(_) => 2
    case LogUnsupportedResponse(_) => 3
  }

  /** The literal third and sixth arguments of every data request. */
  const DataRequestThirdArgument: uint8 := 1
  const DataRequestSixthArgument: uint8 := 15

  class LocalSmartClusterFunctions {
    const commandIdCache: CommandIdCache

    /** `NewLocalSmartClusterFunctions`: index the library's received commands per cluster. */
    constructor (catalog: seq<ClusterDescriptor>)
      ensures commandIdCache == CommandIdCacheOf(catalog)
    {
      var ccc := BuildCommandIdCache(catalog);
      commandIdCache := ccc;
    }

    /**
     * `lookupCommandId`: the id filed under the command's type in the cluster's map;
     * `(0, false)` if the cluster or the type is not indexed.
     */
    function LookupCommandId(clusterId: ClusterId, command: Command): (r: (CommandId, bool))
      ensures clusterId !in commandIdCache ==> r == (0, false)
      ensures clusterId in commandIdCache ==>
                (r.1 <==> command.commandType in commandIdCache[clusterId])
      ensures r.1 ==> r.0 == commandIdCache[clusterId][command.commandType]
      ensures !r.1 ==> r.0 == 0
    {
      if clusterId !in commandIdCache then (0, false)
      else
        var commandCache := commandIdCache[clusterId];
        if command.commandType in commandCache then (commandCache[command.commandType], true)
        else (0, false)
    }

    /**
     * `IssueCommand`: send `command` to `endpoint` of the device at `nwkAddress` and
     * interpret the reply. `build`, `dataRequest` and `decode` give the outcome of the
     * frame builder, the coordinator and the reply decoder for each argument.
     */
    method IssueCommand(
      nwkAddress: string, endpoint: uint8, clusterId: ClusterId, command: Command,
      build: FrameSpec -> Result<Bytes, Error>,
      dataRequest: DataRequest -> Result<AfIncomingMessage, Error>,
      decode: AfIncomingMessage -> Result<ZclIncomingMessage, Error>)
      returns (outcome: IssueOutcome, effects: seq<Effect>)
      // The calls follow the protocol order, each at most once: no retry.
      ensures forall k :: 0 <= k < |effects| ==> Stage(effects[k]) == k
      // An unresolved command fails naming the cluster, before any frame or I/O.
      ensures !LookupCommandId(clusterId, command).1 ==>
                outcome == ReturnedError(LookupFailed(clusterId)) && effects == []
      // A resolved command is built as a local, client-to-server frame that asks
      // for a default response and carries the resolved id.
      ensures LookupCommandId(clusterId, command).1 ==>
                |effects| >= 1 &&
                effects[0] == BuildFrame(FrameSpec(false, FrameTypeLocal, DirectionClientServer,
                                                   LookupCommandId(clusterId, command).0, command))
      // A frame-build error is returned as it is, before any I/O.
      ensures |effects| >= 1 && build(effects[0].spec).Failure? ==>
                outcome == ReturnedError(build(effects[0].spec).error) && |effects| == 1
      // A built frame is sent once, to the cluster, with the literals 1 and 15 in third and sixth place.
      ensures |effects| >= 1 && build(effects[0].spec).Success? ==>
                |effects| >= 2 &&
                effects[1] == SendDataRequest(DataRequest(nwkAddress, endpoint, DataRequestThirdArgument, clusterId,
                                                          DefaultRequestOptions, DataRequestSixthArgument,
                                                          build(effects[0].spec).value))
      // A transport error is returned unchanged.
      ensures |effects| >= 2 && dataRequest(effects[1].request).Failure? ==>
                outcome == ReturnedError(dataRequest(effects[1].request).error) && |effects| == 2
      // A reply is decoded.
      ensures |effects| >= 2 && dataRequest(effects[1].request).Success? ==>
                |effects| >= 3 && effects[2] == DecodeResponse(dataRequest(effects[1].request).value)
      // An undecodable reply is logged, and the transport's nil error is returned.
      ensures |effects| >= 3 && decode(effects[2].response).Failure? ==>
                outcome == ReturnedNil && effects == effects[..3] + [LogUnsupportedResponse(effects[2].response)]
      // A decoded default response: nil on success, otherwise an error with the
      // command id, the cluster id and the status; any other reply panics.
      ensures |effects| >= 3 && decode(effects[2].response).Success? ==>
                |effects| == 3 &&
                match decode(effects[2].response).value.command
                case DefaultResponseCommand(_, status) =>
                  outcome == (if status == ZclStatusSuccess then ReturnedNil
                              else ReturnedError(CommandFailed(effects[0].spec.commandId, clusterId, status)))
                case OtherCommand(_) => outcome == Panicked
    {
      var lookup := LookupCommandId(clusterId, command);
      var commandId, ok := lookup.0, lookup.1;
      if !ok {
        return ReturnedError(LookupFailed(clusterId)), [];
      }

      var options := DefaultRequestOptions;
      var spec := FrameSpec(false, FrameTypeLocal, DirectionClientServer, commandId, command);
      effects := [BuildFrame(spec)];
      var frm := build(spec);
      if frm.Failure? {
        return ReturnedError(frm.error), effects;
      }

      var request := DataRequest(nwkAddress, endpoint, DataRequestThirdArgument, clusterId, options, DataRequestSixthArgument, frm.value);
      effects := effects + [SendDataRequest(request)];
      var response := dataRequest(request);
      if response.Success? {
        effects := effects + [DecodeResponse(response.value)];
        // The decoder's error is local to this block.
        var zclIncomingMessage := decode(response.value);
        if zclIncomingMessage.Success? {
          match zclIncomingMessage.value.command
          case DefaultResponseCommand(_, status) =>
            if status != ZclStatusSuccess {
              return ReturnedError(CommandFailed(commandId, clusterId, status)), effects;
            }
            return ReturnedNil, effects;
          case OtherCommand(_) =>
            // The type assertion to a default response fails.
            return Panicked, effects;
        } else {
          effects := effects + [LogUnsupportedResponse(response.value)];
        }
      }
      // The transport's error, which is nil when a reply arrived.
      outcome := if response.Failure? then ReturnedError(response.error) else ReturnedNil;
    }
  }
}
