/** The policy values: a scope plus one of three kinds of quota. In the system these are the
    `QuotaSettings` subclasses; their constructors store their arguments. */
module Settings {
  import opened Wrappers
  import opened QuotaProtos

  /** A table identifier (opaque). */
  datatype TableName = TableName(name: string)

  /** Who or what a policy applies to. No exclusivity between table and namespace is imposed
      here: only the space-limit decoder checks it. */
  datatype Scope = Scope(userName: Option<string>, tableName: Option<TableName>, namespace: Option<string>)

  /** The kind a policy reports. */
  datatype QuotaType = THROTTLE | GLOBAL_BYPASS | SPACE

  /** A single quota policy. */
  datatype QuotaSettings =
    | ThrottleSettings(scope: Scope, proto: ThrottleRequest)
    | GlobalsSettingsBypass(scope: Scope, bypassGlobals: bool)
    | SpaceLimitSettings(scope: Scope, space: SpaceQuota)

  /** The kind each policy variant reports. */
  function QuotaTypeOf(s: QuotaSettings): (t: QuotaType)
    ensures t == GLOBAL_BYPASS <==> s.GlobalsSettingsBypass?
    ensures t == THROTTLE <==> s.ThrottleSettings?
    ensures t == SPACE <==> s.SpaceLimitSettings?
  {
    match s
    case ThrottleSettings(_, _) => THROTTLE
    case GlobalsSettingsBypass(_, _) => GLOBAL_BYPASS
    case SpaceLimitSettings(_, _) => SPACE
  }

  /** How a bypass policy fills in a mutation request: it sets the bypass field to its flag and
      leaves every other field as it was. */
  function SetupSetQuotaRequest(s: QuotaSettings, builder: SetQuotaRequest): (r: SetQuotaRequest)
    requires s.GlobalsSettingsBypass?
    ensures r.bypassGlobals == Some(s.bypassGlobals)
    ensures r.throttle == builder.throttle && r.space == builder.space
  {
    builder.(bypassGlobals := Some(s.bypassGlobals))
  }

  /** The rate type a policy throttles, if it is a throttle that names one. */
  function ThrottleTypeOf(s: QuotaSettings): Option<ThrottleType> {
    if s.ThrottleSettings? then s.proto.throttleType else None
  }

  /** The throttle policy that carries quota `q` for rate type `k` (a stored field decoded). */
  function FromTimedQuota(scope: Scope, k: ThrottleType, q: TimedQuota): QuotaSettings {
    ThrottleSettings(scope, ThrottleRequest(Some(k), Some(q)))
  }

  /** The space-limit policy on a table, from a stored space sub-record. */
  function FromSpaceQuotaForTable(table: TableName, q: SpaceQuota): QuotaSettings {
    SpaceLimitSettings(Scope(None, Some(table), None), q)
  }

  /** The space-limit policy on a namespace, from a stored space sub-record. */
  function FromSpaceQuotaForNamespace(namespace: string, q: SpaceQuota): QuotaSettings {
    SpaceLimitSettings(Scope(None, None, Some(namespace)), q)
  }

  /** A throttle policy that asks for the removal of every throttle on its scope. */
  predicate IsClearIntent(s: QuotaSettings) {
    s.ThrottleSettings? && s.proto == ThrottleRequest(None, None)
  }

  /** Where a policy sits in a decoded list: throttles by field order (0 to 5), then the bypass
      entry (6), then the space entry (7). A throttle without a type ranks first. */
  function Rank(s: QuotaSettings): int {
    match s
    case ThrottleSettings(_, req) =>
      (match req.throttleType
       case Some(k) => Ordinal(k)
       case None => -1)
    case GlobalsSettingsBypass(_, _) => 6
    case SpaceLimitSettings(_, _) => 7
  }

  /** Policies listed in strictly increasing rank: ordered, and no rank repeated. */
  predicate StrictlyRanked(r: seq<QuotaSettings>) {
    forall i, j | 0 <= i < j < |r| :: Rank(r[i]) < Rank(r[j])
  }
}
