/**
 The tag rewriter: requests that name a block by tag are rewritten to the numbers the consensus has
 agreed on, requests beyond the agreed head are refused, and log filters are held to a block range.

 JSON is a datatype; a string is classified by what go-ethereum's block-number parsing makes of it.
 */
module Rewriter {

  import opened Words

  // ---------- JSON and block references ----------

  /** `Hex` is a canonical 0x quantity, `HashText` any 66-character hash, `Garbage` anything else. */
  datatype Text =
    | Latest | Safe | Finalized | Pending | Earliest
    | Hex(n: U64) | HashText(h: nat) | Blank | Garbage(g: nat)

  datatype Json = Null | Bool(b: bool) | Str(t: Text) | Obj(fields: map<string, Json>) | Other(v: nat)

  /** `rpc.BlockNumberOrHash`; tags are negative numbers, and "earliest" is number 0. */
  datatype BlockRef = BlockRef(number: Option<int>, hash: Option<nat>, requireCanonical: bool)

  const SAFE_NUMBER := -4
  const FINALIZED_NUMBER := -3
  const LATEST_NUMBER := -2
  const PENDING_NUMBER := -1
  const EARLIEST_NUMBER := 0

  /** Quantities above the largest int64 are refused. */
  function ParseNumber(t: Text): Option<int> {
    match t
    case Latest => Some(LATEST_NUMBER)
    case Safe => Some(SAFE_NUMBER)
    case Finalized => Some(FINALIZED_NUMBER)
    case Pending => Some(PENDING_NUMBER)
    case Earliest => Some(EARLIEST_NUMBER)
    case Hex(n) => if n < TWO_63 then Some(n) else None
    case _ => None
  }

  /** How a block number is written back. */
  function NumberText(n: int): Text
    requires n < TWO_63
  {
    if n == EARLIEST_NUMBER then Earliest
    else if n == PENDING_NUMBER then Pending
    else if n == LATEST_NUMBER then Latest
    else if n == FINALIZED_NUMBER then Finalized
    else if n == SAFE_NUMBER then Safe
    else if n < 0 then Garbage(-n)
    else Hex(n)
  }

  /** A field that is absent or null is `Some(None)`; one that does not parse is `None`. */
  function NumberField(fields: map<string, Json>): Option<Option<int>> {
    if "blockNumber" !in fields || fields["blockNumber"].Null? then Some(None)
    else if fields["blockNumber"].Str? && ParseNumber(fields["blockNumber"].t).Some? then
      Some(ParseNumber(fields["blockNumber"].t))
    else None
  }

  function HashField(fields: map<string, Json>): Option<Option<nat>> {
    if "blockHash" !in fields || fields["blockHash"].Null? then Some(None)
    else if fields["blockHash"].Str? && fields["blockHash"].t.HashText? then Some(Some(fields["blockHash"].t.h))
    else None
  }

  function CanonicalField(fields: map<string, Json>): Option<bool> {
    if "requireCanonical" !in fields || fields["requireCanonical"].Null? then Some(false)
    else if fields["requireCanonical"].Bool? then Some(fields["requireCanonical"].b)
    else None
  }

  /** `BlockNumberOrHash.UnmarshalJSON`: the EIP-1898 object, or a bare string. */
  function ParseRef(j: Json): Option<BlockRef> {
    match j
    case Null => Some(BlockRef(None, None, false))
    case Obj(fields) =>
      (match (NumberField(fields), HashField(fields), CanonicalField(fields))
       case (Some(number), Some(hash), Some(canonical)) =>
         if number.Some? && hash.Some? then None else Some(BlockRef(number, hash, canonical))
       case _ => None)
    case Str(HashText(h)) => Some(BlockRef(None, Some(h), false))
    case Str(t) => if ParseNumber(t).Some? then Some(BlockRef(ParseNumber(t), None, false)) else None
    case _ => None
  }

  /** The EIP-1898 object of a plain number. */
  function NumberObject(n: int): Json
    requires n < TWO_63
  {
    Obj(map["blockNumber" := Str(NumberText(n))])
  }

  // ---------- the pure core ----------

  datatype RewriteContext = RewriteContext(latest: U64, safe: U64, finalized: U64, maxBlockRange: U64)

  datatype Error = OutOfRange | RangeTooLarge | BadParams

  datatype TagRewrite<+T> = Keep | Replace(val: T) | Reject(err: Error)

  function RewriteTag(rctx: RewriteContext, current: Text): TagRewrite<Text> {
    match ParseRef(Str(current))
    case None => Reject(BadParams)
    case Some(ref) =>
      if ref.number.None? then Keep
      else
        var n := ref.number.value;
        if n == PENDING_NUMBER || n == EARLIEST_NUMBER then Keep
        else if n == FINALIZED_NUMBER then Replace(Hex(rctx.finalized))
        else if n == SAFE_NUMBER then Replace(Hex(rctx.safe))
        else if n == LATEST_NUMBER then Replace(Hex(rctx.latest))
        else if n > ToInt64(rctx.latest) then Reject(OutOfRange)
        else Keep
  }

  /** The same decision on a parsed reference; heads are converted to int64 on the way. */
  function RewriteRef(rctx: RewriteContext, current: BlockRef): TagRewrite<Json> {
    if current.number.None? then Keep
    else
      var n := current.number.value;
      if n == PENDING_NUMBER || n == EARLIEST_NUMBER then Keep
      else if n == FINALIZED_NUMBER then Replace(NumberObject(ToInt64(rctx.finalized)))
      else if n == SAFE_NUMBER then Replace(NumberObject(ToInt64(rctx.safe)))
      else if n == LATEST_NUMBER then Replace(NumberObject(ToInt64(rctx.latest)))
      else if n > ToInt64(rctx.latest) then Reject(OutOfRange)
      else Keep
  }

  /** One parameter; `blockNrOrHash` methods take the EIP-1898 forms. */
  function RewriteValue(rctx: RewriteContext, j: Json, blockNrOrHash: bool): TagRewrite<Json> {
    if blockNrOrHash then
      match ParseRef(j)
      case Some(ref) => RewriteRef(rctx, ref)
      case None => Reject(BadParams)
    else if j.Str? then
      match RewriteTag(rctx, j.t)
      case Keep => Keep
      case Replace(t) => Replace(Str(t))
      case Reject(e) => Reject(e)
    else Reject(BadParams)
  }

  /** A filter bound as a number, once tags have been replaced. */
  function BlockNumber(j: Json, latest: U64): Option<U64> {
    if !j.Str? then None
    else match j.t
      case Earliest => Some(0)
      case Pending => Some(Add64(latest, 1))
      case Hex(n) => Some(n)
      case _ => None
  }

  // ---------- requests ----------

  /** Raw parameters: not JSON of the expected shape, `null`, or an array. */
  datatype Params = Unparsable | NullParams | Array(elems: seq<Json>)

  datatype RewriteResult =
    | RewriteNone
    | RewriteOverrideError(err: Error)
    | RewriteOverrideRequest
    | RewriteOverrideResponse(result: U64)
    | IndexPanic
  {
    predicate Accepted() {
      RewriteNone? || RewriteOverrideRequest?
    }
  }

  datatype Rule = NoRule | RangeRule | ParamRule(pos: nat, required: bool, blockNrOrHash: bool)

  function RuleFor(m: string): Rule {
    if m == "eth_getLogs" || m == "eth_newFilter" then RangeRule
    else if m == "debug_getRawReceipts" || m == "consensus_getReceipts" then ParamRule(0, true, false)
    else if m == "eth_getBalance" || m == "eth_getCode" || m == "eth_getTransactionCount" || m == "eth_call" then
      ParamRule(1, false, true)
    else if m == "eth_getStorageAt" || m == "eth_getProof" then ParamRule(2, false, true)
    else if m == "eth_getBlockTransactionCountByNumber" || m == "eth_getUncleCountByBlockNumber"
            || m == "eth_getBlockByNumber" || m == "eth_getTransactionByBlockNumberAndIndex"
            || m == "eth_getUncleByBlockNumberAndIndex" then ParamRule(0, false, false)
    else NoRule
  }

  function Elems(p: Params): seq<Json> {
    if p.Array? then p.elems else []
  }

  /** The parameters with "latest" filled in where the rule lets the block default. */
  function Defaulted(p: Params, rule: Rule): seq<Json>
    requires rule.ParamRule?
  {
    if |Elems(p)| == rule.pos && !rule.required then Elems(p) + [Str(Latest)] else Elems(p)
  }

  function RewrittenParam(rctx: RewriteContext, p: Params, rule: Rule): (RewriteResult, Params)
    requires rule.ParamRule?
  {
    if p.Unparsable? then (RewriteOverrideError(BadParams), p)
    else
      var q := Defaulted(p, rule);
      if |q| <= rule.pos then (RewriteNone, p)
      else match RewriteValue(rctx, q[rule.pos], rule.blockNrOrHash)
        case Keep => (RewriteNone, p)
        case Reject(e) => (RewriteOverrideError(e), p)
        case Replace(val) => (RewriteOverrideRequest, Array(q[rule.pos := val]))
  }

  // ---------- filters ----------

  const FROM := "fromBlock"
  const TO := "toBlock"

  type Fields = map<string, Json>

  predicate NamesBound(m: Fields) {
    FROM in m || TO in m
  }

  /** When one bound is named, the other defaults to "latest". */
  function WithDefaults(m: Fields): Fields {
    if FROM in m && TO !in m then m[TO := Str(Latest)]
    else if TO in m && FROM !in m then m[FROM := Str(Latest)]
    else m
  }

  function RewriteBound(rctx: RewriteContext, m: Fields, key: string): TagRewrite<Text> {
    if key !in m || m[key].Null? || m[key] == Str(Blank) then Keep
    else if !m[key].Str? then Reject(BadParams)
    else RewriteTag(rctx, m[key].t)
  }

  function Apply(m: Fields, key: string, rw: TagRewrite<Text>): Fields {
    if rw.Replace? then m[key := Str(rw.val)] else m
  }

  function BoundOf(m: Fields, key: string, latest: U64): Option<U64> {
    if key in m then BlockNumber(m[key], latest) else None
  }

  /** What is wrong with the range, if anything: one wrapping subtraction decides. */
  function RangeError(rctx: RewriteContext, named: bool, m: Fields): Option<Error> {
    if rctx.maxBlockRange == 0 || !named then None
    else match (BoundOf(m, FROM, rctx.latest), BoundOf(m, TO, rctx.latest))
      case (Some(from), Some(to)) =>
        if Sub64(to, from) > rctx.maxBlockRange then Some(RangeTooLarge) else None
      case _ => Some(BadParams)
  }

  function RewrittenFilter(rctx: RewriteContext, m: Fields): (RewriteResult, Fields) {
    var m0 := WithDefaults(m);
    var from := RewriteBound(rctx, m0, FROM);
    if from.Reject? then (RewriteOverrideError(from.err), m)
    else
      var m1 := Apply(m0, FROM, from);
      var to := RewriteBound(rctx, m1, TO);
      if to.Reject? then (RewriteOverrideError(to.err), m)
      else
        var m2 := Apply(m1, TO, to);
        var err := RangeError(rctx, NamesBound(m), m2);
        if err.Some? then (RewriteOverrideError(err.value), m)
        else if from.Replace? || to.Replace? then (RewriteOverrideRequest, m2)
        else (RewriteNone, m)
  }

  predicate IsFilterList(p: Params) {
    p.Array? && forall j :: j in p.elems ==> j.Obj? || j.Null?
  }

  function RewrittenRange(rctx: RewriteContext, p: Params): (RewriteResult, Params) {
    if p.NullParams? || p == Array([]) then (IndexPanic, p)
    else if !IsFilterList(p) then (RewriteOverrideError(BadParams), p)
    else if p.elems[0].Null? then (RewriteNone, p)
    else
      var (r, m) := RewrittenFilter(rctx, p.elems[0].fields);
      (r, if r.RewriteOverrideRequest? then Array(p.elems[0 := Obj(m)]) else p)
  }

  function Rewritten(rctx: RewriteContext, m: string, p: Params): (RewriteResult, Params) {
    if m == "eth_blockNumber" then (RewriteOverrideResponse(rctx.latest), p)
    else match RuleFor(m)
      case NoRule => (RewriteNone, p)
      case RangeRule => RewrittenRange(rctx, p)
      case ParamRule(_, _, _) => RewrittenParam(rctx, p, RuleFor(m))
  }

  /** A request in flight; rewriting replaces its parameters in place. */
  class RPCReq {
    const rpcMethod: string
    var params: Params

    constructor (m: string, p: Params)
      ensures rpcMethod == m && params == p
    {
      rpcMethod, params := m, p;
    }

    method RewriteTags(rctx: RewriteContext) returns (r: RewriteResult)
      modifies this
      ensures (r, params) == Rewritten(rctx, rpcMethod, old(params))
    {
      if rpcMethod == "eth_blockNumber" {
        return RewriteOverrideResponse(rctx.latest);
      }
      match RuleFor(rpcMethod)
      case NoRule =>
        return RewriteNone;
      case RangeRule =>
        r := RewriteRange(rctx);
      case ParamRule(pos, required, blockNrOrHash) =>
        r := RewriteParam(rctx, pos, required, blockNrOrHash);
    }

    method RewriteParam(rctx: RewriteContext, pos: nat, required: bool, blockNrOrHash: bool) returns (r: RewriteResult)
      modifies this
      ensures (r, params) == RewrittenParam(rctx, old(params), ParamRule(pos, required, blockNrOrHash))
    {
      if params.Unparsable? {
        return RewriteOverrideError(BadParams);
      }
      var p := Elems(params);
      if |p| == pos && !required {
        p := p + [Str(Latest)];
      } else if |p| <= pos {
        return RewriteNone;
      }
      var rw: TagRewrite<Json>;
      if blockNrOrHash {
        match ParseRef(p[pos])
        case None =>
          // a string that is no block reference is refused by the string path too
          if p[pos].Str? {
            var s := RewriteTag(rctx, p[pos].t);
            rw := Reject(s.err);
          } else {
            rw := Reject(BadParams);
          }
        case Some(ref) =>
          rw := RewriteRef(rctx, ref);
      } else {
        if !p[pos].Str? {
          return RewriteOverrideError(BadParams);
        }
        var s := RewriteTag(rctx, p[pos].t);
        rw := match s case Keep => Keep case Replace(t) => Replace(Str(t)) case Reject(e) => Reject(e);
      }
      match rw
      case Reject(e) =>
        return RewriteOverrideError(e);
      case Keep =>
        return RewriteNone;
      case Replace(val) =>
        p := p[pos := val];
        params := Array(p);
        return RewriteOverrideRequest;
    }

    method RewriteRange(rctx: RewriteContext) returns (r: RewriteResult)
      modifies this
      ensures (r, params) == RewrittenRange(rctx, old(params))
    {
      if params.NullParams? || (params.Array? && params.elems == []) {
        return IndexPanic;
      }
      if !IsFilterList(params) {
        return RewriteOverrideError(BadParams);
      }
      var p := params.elems;
      var m: Fields := if p[0].Obj? then p[0].fields else map[];
      var hasFrom, hasTo := FROM in m, TO in m;
      if hasFrom && !hasTo {
        m := m[TO := Str(Latest)];
      } else if hasTo && !hasFrom {
        m := m[FROM := Str(Latest)];
      }
      var modifiedFrom, modifiedTo, err;
      m, modifiedFrom, err := RewriteTagMap(rctx, m, FROM);
      if err.Some? {
        return RewriteOverrideError(err.value);
      }
      m, modifiedTo, err := RewriteTagMap(rctx, m, TO);
      if err.Some? {
        return RewriteOverrideError(err.value);
      }
      if rctx.maxBlockRange > 0 && (hasFrom || hasTo) {
        var from := BoundOf(m, FROM, rctx.latest);
        if from.None? {
          return RewriteOverrideError(BadParams);
        }
        var to := BoundOf(m, TO, rctx.latest);
        if to.None? {
          return RewriteOverrideError(BadParams);
        }
        if Sub64(to.value, from.value) > rctx.maxBlockRange {
          return RewriteOverrideError(RangeTooLarge);
        }
      }
      if modifiedFrom || modifiedTo {
        p := p[0 := Obj(m)];
        params := Array(p);
        return RewriteOverrideRequest;
      }
      return RewriteNone;
    }
  }

  /** Rewrites one bound of a filter; the map it is given is the one it updates. */
  method RewriteTagMap(rctx: RewriteContext, m: Fields, key: string)
    returns (m': Fields, modified: bool, err: Option<Error>)
    ensures err.Some? <==> RewriteBound(rctx, m, key).Reject?
    ensures err.Some? ==> err.value == RewriteBound(rctx, m, key).err
    ensures m' == Apply(m, key, RewriteBound(rctx, m, key))
    ensures modified <==> RewriteBound(rctx, m, key).Replace?
  {
    m', modified, err := m, false, None;
    if key !in m || m[key].Null? || m[key] == Str(Blank) {
      return;
    }
    if !m[key].Str? {
      err := Some(BadParams);
      return;
    }
    match RewriteTag(rctx, m[key].t)
    case Keep =>
    case Reject(e) =>
      err := Some(e);
    case Replace(val) =>
      m', modified := m[key := Str(val)], true;
  }
}
