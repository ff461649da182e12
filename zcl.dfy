/**
 * Value types of the ZigBee Cluster Library and of the ZNP transport that the
 * dispatcher passes around. Only their shape is modelled here: the codecs and the
 * transport that produce and consume them are collaborators outside this model.
 */
module Zcl {

  newtype uint8 = x: int | 0 <= x < 0x100
  newtype uint16 = x: int | 0 <= x < 0x1_0000

  type Bytes = seq<uint8>

  /** `cluster.ClusterId` is a 16-bit identifier. */
  type ClusterId = uint16

  /** The numeric command identifier that goes on the wire. */
  type CommandId = uint8

  /** `cluster.ZclStatus`; `ZclStatusSuccess` is 0x00. */
  type ZclStatus = uint8
  const ZclStatusSuccess: ZclStatus := 0

  /**
   * The runtime type of a command value (what `reflect.TypeOf` yields), identified by
   * its type name; two command values have the same type exactly when their tags agree.
   */
  datatype CommandType = CommandType(name: string)

  /** A command value: its type and the field values the frame codec serialises. */
  datatype Command = Command(commandType: CommandType, fields: Bytes)

  /** One entry of a cluster's `CommandDescriptors.Received`: its id and a prototype's type. */
  datatype ReceivedCommand = ReceivedCommand(commandId: CommandId, commandType: CommandType)

  /** One cluster of the cluster library, with the commands it receives. */
  datatype ClusterDescriptor = ClusterDescriptor(clusterId: ClusterId, received: seq<ReceivedCommand>)

  datatype FrameType = FrameTypeGlobal | FrameTypeLocal

  datatype Direction = DirectionClientServer | DirectionServerClient

  /** What `frame.New()` is told before `Build()`: the header settings and the command. */
  datatype FrameSpec = FrameSpec(
    disableDefaultResponse: bool,
    frameType: FrameType,
    direction: Direction,
    commandId: CommandId,
    command: Command)

  /** `znp.AfDataRequestOptions` as the dispatcher passes it: the zero value, every flag off. */
  datatype AfDataRequestOptions = AfDataRequestOptions(
    wildcardProfileId: bool, apsAck: bool, discoverRoute: bool, apsSecurity: bool, skipRouting: bool)

  const DefaultRequestOptions := AfDataRequestOptions(false, false, false, false, false)

  /**
   * The arguments of one `coordinator.DataRequest` call, in call order. The third and
   * sixth are single bytes whose meaning belongs to the coordinator; they are named by position.
   */
  datatype DataRequest = DataRequest(
    nwkAddress: string,
    endpoint: uint8,
    thirdArgument: uint8,
    clusterId: uint16,
    options: AfDataRequestOptions,
    sixthArgument: uint8,
    payload: Bytes)

  /** The raw reply the coordinator hands back (`*znp.AfIncomingMessage`). */
  datatype AfIncomingMessage = AfIncomingMessage(data: Bytes)

  /** The command carried by a decoded reply. */
  datatype ZclCommand =
    | DefaultResponseCommand(commandId: CommandId, status: ZclStatus)
    | OtherCommand(commandType: CommandType)

  /** A reply decoded by `zcl.ToZclIncomingMessage`. */
  datatype ZclIncomingMessage = ZclIncomingMessage(command: ZclCommand)
}
