/** The wire-level quota messages the factory reads and writes. They are generated protobuf
    classes in the system; here they are plain records whose optional fields are `Option`s. */
module QuotaProtos {
  import opened Wrappers

  /** A Java `long`: limits are carried at this width and never range-checked. */
  type Long = x: int | -0x8000_0000_0000_0000 <= x < 0x8000_0000_0000_0000

  /** The period of a timed quota (an opaque enumeration here). */
  datatype TimeUnit = NANOSECONDS | MICROSECONDS | MILLISECONDS | SECONDS | MINUTES | HOURS | DAYS

  /** The six kinds of rate a throttle can bound. */
  datatype ThrottleType =
    | REQUEST_NUMBER | REQUEST_SIZE | WRITE_NUMBER | WRITE_SIZE | READ_NUMBER | READ_SIZE

  /** Whether a timed quota is accounted per machine or across the cluster. */
  datatype QuotaScope = CLUSTER | MACHINE

  /** The action taken when a space limit is exceeded. */
  datatype SpaceViolationPolicy = DISABLE | NO_WRITES_COMPACTIONS | NO_WRITES | NO_INSERTS

  /** A rate threshold: `softLimit` requests (or bytes) per `timeUnit`. */
  datatype TimedQuota = TimedQuota(timeUnit: TimeUnit, softLimit: Long, scope: QuotaScope)

  /** The throttle sub-record of a stored quota: one optional timed quota per rate type. */
  datatype Throttle = Throttle(
    reqNum: Option<TimedQuota>,
    reqSize: Option<TimedQuota>,
    writeNum: Option<TimedQuota>,
    writeSize: Option<TimedQuota>,
    readNum: Option<TimedQuota>,
    readSize: Option<TimedQuota>)

  /** The space sub-record: a size limit in bytes and the policy enacted when it is exceeded. */
  datatype SpaceQuota = SpaceQuota(softLimit: Long, violationPolicy: SpaceViolationPolicy)

  /** The composite stored quota record. */
  datatype Quotas = Quotas(
    bypassGlobals: Option<bool>,
    throttle: Option<Throttle>,
    space: Option<SpaceQuota>)

  /** The throttle directive of a mutation request; leaving out both fields asks for removal. */
  datatype ThrottleRequest = ThrottleRequest(
    throttleType: Option<ThrottleType>,
    timedQuota: Option<TimedQuota>)

  /** The fields of a quota mutation request that the policies fill in. */
  datatype SetQuotaRequest = SetQuotaRequest(
    bypassGlobals: Option<bool>,
    throttle: Option<ThrottleRequest>,
    space: Option<SpaceQuota>)

  /** What a reader of the optional `bypass_globals` field sees: an unset field reads false. */
  function GetBypassGlobals(q: Quotas): (b: bool)
    ensures b <==> q.bypassGlobals == Some(true)
  {
    match q.bypassGlobals
    case Some(flag) => flag
    case None => false
  }

  /** The field of the throttle sub-record that carries the quota for rate type `k`. */
  function Field(t: Throttle, k: ThrottleType): Option<TimedQuota> {
    match k
    case REQUEST_NUMBER => t.reqNum
    case REQUEST_SIZE => t.reqSize
    case WRITE_NUMBER => t.writeNum
    case WRITE_SIZE => t.writeSize
    case READ_NUMBER => t.readNum
    case READ_SIZE => t.readSize
  }

  /** The order in which the decoder visits the rate-type fields. */
  const FIELD_ORDER: seq<ThrottleType> :=
    [REQUEST_NUMBER, REQUEST_SIZE, WRITE_NUMBER, WRITE_SIZE, READ_NUMBER, READ_SIZE]

  /** The position of rate type `k` in `FIELD_ORDER`. */
  function Ordinal(k: ThrottleType): (n: nat)
    ensures n < |FIELD_ORDER| && FIELD_ORDER[n] == k
  {
    match k
    case REQUEST_NUMBER => 0
    case REQUEST_SIZE => 1
    case WRITE_NUMBER => 2
    case WRITE_SIZE => 3
    case READ_NUMBER => 4
    case READ_SIZE => 5
  }

  /** A throttle sub-record in which only the field for rate type `k` is set, to `q`. */
  function OnlyField(k: ThrottleType, q: TimedQuota): (t: Throttle)
    ensures Field(t, k) == Some(q)
    ensures forall k' :: k' != k ==> Field(t, k') == None
  {
    var none := Throttle(None, None, None, None, None, None);
    match k
    case REQUEST_NUMBER => none.(reqNum := Some(q))
    case REQUEST_SIZE => none.(reqSize := Some(q))
    case WRITE_NUMBER => none.(writeNum := Some(q))
    case WRITE_SIZE => none.(writeSize := Some(q))
    case READ_NUMBER => none.(readNum := Some(q))
    case READ_SIZE => none.(readSize := Some(q))
  }

  /** The timed quota built for a limit, a period and an accounting scope. */
  function ToTimedQuota(limit: Long, timeUnit: TimeUnit, scope: QuotaScope): TimedQuota {
    TimedQuota(timeUnit, limit, scope)
  }
}
