/** The messages of the OMI-Lite protocol. */
module Omi {
  import opened Wrappers
  import opened Floats
  import opened Odf

  const MAX_OBJECT_DEPTH: nat := 8

  datatype ReadOp = ReadOp(
    path: Option<string>,
    rid: Option<string>,
    newest: Option<U64>,
    oldest: Option<U64>,
    begin: Option<F64>,
    end: Option<F64>,
    depth: Option<U64>,
    interval: Option<F64>,
    callback: Option<string>
  )

  datatype WriteItem = WriteItem(path: string, v: OmiValue, t: Option<F64>)

  datatype WriteOp =
    | Single(path: string, v: OmiValue, t: Option<F64>)
    | Batch(items: seq<WriteItem>)
    | Tree(path: string, objects: Objects)

  datatype ItemStatus = ItemStatus(path: string, status: U16, desc: Option<string>)

  datatype ResultPayload =
    | NullPayload
    | ReadValues(path: string, values: seq<Value>, meta: Option<map<string, OmiValue>>)

  datatype ResponseResult = StatusBatch(items: seq<ItemStatus>) | SingleResult(payload: ResultPayload)

  datatype ResponseBody = ResponseBody(
    status: U16,
    rid: Option<string>,
    desc: Option<string>,
    result: Option<ResponseResult>
  )

  datatype Operation =
    | Read(read: ReadOp)
    | Write(write: WriteOp)
    | Delete(path: string)
    | Cancel(rids: seq<string>)
    | Response(body: ResponseBody)

  datatype OmiMessage = OmiMessage(version: string, ttl: I64, operation: Operation)

  predicate ValidRead(op: ReadOp) { op.path.Some? != op.rid.Some? }

  predicate ValidDelete(path: string) { path != [] && path[0] == '/' && path != "/" }

  predicate ValidCancel(rids: seq<string>) { rids != [] }
}
