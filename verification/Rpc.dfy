/** JSON-RPC requests and responses as they travel through the proxy. */
module Rpc {

  import Rewriter

  datatype Err =
    | ParseError | InvalidRequest | NotWhitelisted | OverRateLimit
    | BlockOutOfRange | RangeTooLarge
    | ReceiptsCantBeBatched | ReceiptsInvalidTarget | ResponseTooLarge | UnexpectedJson | NoBackends
    | BackendError(code: int)

  datatype Body = Result(v: int) | Error(err: Err)

  datatype Req = Req(id: string, rpcMethod: string, params: Rewriter.Params)

  datatype Res = Res(id: string, body: Body)

  /** The ID of a response to a request that has no usable ID of its own. */
  const NULL_ID := ""

  predicate DistinctIds(reqs: seq<Req>) {
    forall i, j :: 0 <= i < j < |reqs| ==> reqs[i].id != reqs[j].id
  }

  predicate DistinctResIds(res: seq<Res>) {
    forall i, j :: 0 <= i < j < |res| ==> res[i].id != res[j].id
  }
}
