/** Decoding of stored quota records into policies, and the builders that construct a single
    policy from high-level parameters. */
module QuotaSettingsFactory {
  import opened Wrappers
  import opened QuotaProtos
  import opened Settings
  import opened ThrottleDecoding

  /** The one error the factory raises: an argument that cannot be turned into a policy. */
  datatype Error = IllegalArgument(message: string)

  const SPACE_SCOPE_MESSAGE: string := "Can only construct SpaceLimitSettings for a table or namespace."

  /** Exactly one of a table and a namespace is given. */
  predicate ExactlyOneTarget(tableName: Option<TableName>, namespace: Option<string>) {
    tableName.Some? != namespace.Some?
  }

  // ---------------------------------------------------------------------------------------
  // Decoding a stored record

  /** Decodes a space sub-record; it needs exactly one of a table and a namespace. */
  function FromSpace(tableName: Option<TableName>, namespace: Option<string>, proto: SpaceQuota)
    : (r: Result<QuotaSettings, Error>)
    ensures r.Failure? <==> (tableName.None? && namespace.None?) || (tableName.Some? && namespace.Some?)
    ensures r.Failure? ==> r.error == IllegalArgument(SPACE_SCOPE_MESSAGE)
    ensures r.Success? ==> && r.value.SpaceLimitSettings?
                           && r.value.space == proto
                           && r.value.scope == Scope(None, tableName, namespace)
  {
    if (tableName.None? && namespace.None?) || (tableName.Some? && namespace.Some?) then
      Failure(IllegalArgument(SPACE_SCOPE_MESSAGE))
    else if tableName.Some? then
      Success(FromSpaceQuotaForTable(tableName.value, proto))
    else
      Success(FromSpaceQuotaForNamespace(namespace.value, proto))
  }

  /** The throttle policies of a stored record, none when it has no throttle sub-record. */
  function ThrottlePart(userName: Option<string>, tableName: Option<TableName>,
                        namespace: Option<string>, quotas: Quotas): seq<QuotaSettings> {
    if quotas.throttle.Some? then FromThrottle(userName, tableName, namespace, quotas.throttle.value)
    else []
  }

  /** The number of rate-type fields set in a stored record. */
  function ThrottleCount(quotas: Quotas): nat {
    if quotas.throttle.Some? then CountPresent(quotas.throttle.value, FIELD_ORDER) else 0
  }

  /** Decodes a stored record under the caller's scope: its throttles, then a bypass entry if the
      flag is set, then its space limit. A space sub-record under an unsuitable scope fails the
      whole decode. */
  function FromQuotas(userName: Option<string>, tableName: Option<TableName>,
                      namespace: Option<string>, quotas: Quotas): (r: Result<seq<QuotaSettings>, Error>)
    ensures r.Failure? <==> quotas.space.Some? && !ExactlyOneTarget(tableName, namespace)
    ensures r.Failure? ==> r.error == IllegalArgument(SPACE_SCOPE_MESSAGE)
  {
    var scope := Scope(userName, tableName, namespace);
    var settings := ThrottlePart(userName, tableName, namespace, quotas)
                  + (if GetBypassGlobals(quotas) then [GlobalsSettingsBypass(scope, true)] else []);
    if quotas.space.Some? then
      var space :- FromSpace(tableName, namespace, quotas.space.value);
      Success(settings + [space])
    else
      Success(settings)
  }

  /** Decodes the record of a user with no table or namespace. */
  function FromUserQuotas(userName: string, quotas: Quotas): (r: Result<seq<QuotaSettings>, Error>)
    ensures r.Failure? <==> quotas.space.Some?
    ensures r.Success? ==> forall s | s in r.value :: s.scope == Scope(Some(userName), None, None)
  {
    FromQuotasScopes(Some(userName), None, None, quotas);
    FromQuotas(Some(userName), None, None, quotas)
  }

  /** Decodes the record of a user on a table. */
  function FromUserTableQuotas(userName: string, tableName: TableName, quotas: Quotas)
    : (r: Result<seq<QuotaSettings>, Error>)
    ensures r.Success?
    ensures forall s | s in r.value ::
              s.scope == (if s.SpaceLimitSettings? then Scope(None, Some(tableName), None)
                          else Scope(Some(userName), Some(tableName), None))
  {
    FromQuotasScopes(Some(userName), Some(tableName), None, quotas);
    FromQuotas(Some(userName), Some(tableName), None, quotas)
  }

  /** Decodes the record of a user on a namespace. */
  function FromUserNamespaceQuotas(userName: string, namespace: string, quotas: Quotas)
    : (r: Result<seq<QuotaSettings>, Error>)
    ensures r.Success?
    ensures forall s | s in r.value ::
              s.scope == (if s.SpaceLimitSettings? then Scope(None, None, Some(namespace))
                          else Scope(Some(userName), None, Some(namespace)))
  {
    FromQuotasScopes(Some(userName), None, Some(namespace), quotas);
    FromQuotas(Some(userName), None, Some(namespace), quotas)
  }

  /** Decodes the record of a table. */
  function FromTableQuotas(tableName: TableName, quotas: Quotas): (r: Result<seq<QuotaSettings>, Error>)
    ensures r.Success?
    ensures forall s | s in r.value :: s.scope == Scope(None, Some(tableName), None)
  {
    FromQuotasScopes(None, Some(tableName), None, quotas);
    FromQuotas(None, Some(tableName), None, quotas)
  }

  /** Decodes the record of a namespace. */
  function FromNamespaceQuotas(namespace: string, quotas: Quotas): (r: Result<seq<QuotaSettings>, Error>)
    ensures r.Success?
    ensures forall s | s in r.value :: s.scope == Scope(None, None, Some(namespace))
  {
    FromQuotasScopes(None, None, Some(namespace), quotas);
    FromQuotas(None, None, Some(namespace), quotas)
  }

  // ---------------------------------------------------------------------------------------
  // Properties of the decoder

  /** A successful decode is the throttle part, then the bypass entry, then the space entry. */
  lemma FromQuotasParts(userName: Option<string>, tableName: Option<TableName>,
                        namespace: Option<string>, quotas: Quotas)
    ensures var r := FromQuotas(userName, tableName, namespace, quotas);
            r.Success? ==>
              r.value == ThrottlePart(userName, tableName, namespace, quotas)
                       + (if GetBypassGlobals(quotas)
                          then [GlobalsSettingsBypass(Scope(userName, tableName, namespace), true)] else [])
                       + (if quotas.space.Some?
                          then [SpaceLimitSettings(Scope(None, tableName, namespace), quotas.space.value)] else [])
  {
  }

  /** One policy per set throttle field, plus one for a set bypass flag, plus one for a space
      sub-record; a record with none of these decodes to the empty list. */
  lemma FromQuotasLength(userName: Option<string>, tableName: Option<TableName>,
                         namespace: Option<string>, quotas: Quotas)
    ensures var r := FromQuotas(userName, tableName, namespace, quotas);
            r.Success? ==>
              |r.value| == ThrottleCount(quotas) + (if GetBypassGlobals(quotas) then 1 else 0)
                         + (if quotas.space.Some? then 1 else 0)
    ensures quotas.throttle.None? && !GetBypassGlobals(quotas) && quotas.space.None? ==>
              FromQuotas(userName, tableName, namespace, quotas) == Success([])
  {
    if quotas.throttle.Some? {
      FromThrottleLength(userName, tableName, namespace, quotas.throttle.value);
    }
  }

  /** The policies of a record come in increasing rank: throttles in field order, then at most
      one bypass entry, then at most one space entry. */
  lemma FromQuotasOrder(userName: Option<string>, tableName: Option<TableName>,
                        namespace: Option<string>, quotas: Quotas)
    ensures var r := FromQuotas(userName, tableName, namespace, quotas);
            r.Success? ==> StrictlyRanked(r.value)
  {
    var r := FromQuotas(userName, tableName, namespace, quotas);
    if r.Success? {
      FromQuotasParts(userName, tableName, namespace, quotas);
      var scope := Scope(userName, tableName, namespace);
      var t := ThrottlePart(userName, tableName, namespace, quotas);
      var b := if GetBypassGlobals(quotas) then [GlobalsSettingsBypass(scope, true)] else [];
      var p := if quotas.space.Some? then [SpaceLimitSettings(Scope(None, tableName, namespace), quotas.space.value)] else [];
      if quotas.throttle.Some? {
        FromThrottleOrder(userName, tableName, namespace, quotas.throttle.value);
        FromThrottleEntries(userName, tableName, namespace, quotas.throttle.value);
      }
      forall i | 0 <= i < |t|
        ensures Rank(t[i]) < 6
      {
        assert t[i] in t;
      }
      forall i, j | 0 <= i < j < |t + b + p|
        ensures Rank((t + b + p)[i]) < Rank((t + b + p)[j])
      {
        if j < |t| {
          assert (t + b + p)[i] == t[i] && (t + b + p)[j] == t[j];
        } else if i < |t| {
          assert (t + b + p)[i] == t[i];
        }
      }
    }
  }

  /** A bypass entry appears exactly when the record's flag is true; it always carries
      `true` and the caller's scope. */
  lemma FromQuotasBypass(userName: Option<string>, tableName: Option<TableName>,
                         namespace: Option<string>, quotas: Quotas)
    ensures var r := FromQuotas(userName, tableName, namespace, quotas);
            r.Success? ==>
              && ((exists s :: s in r.value && s.GlobalsSettingsBypass?) <==> quotas.bypassGlobals == Some(true))
              && forall s | s in r.value && s.GlobalsSettingsBypass? ::
                   s == GlobalsSettingsBypass(Scope(userName, tableName, namespace), true)
  {
    var r := FromQuotas(userName, tableName, namespace, quotas);
    if r.Success? {
      FromQuotasParts(userName, tableName, namespace, quotas);
      if quotas.throttle.Some? {
        FromThrottleEntries(userName, tableName, namespace, quotas.throttle.value);
      }
      var scope := Scope(userName, tableName, namespace);
      if GetBypassGlobals(quotas) {
        assert GlobalsSettingsBypass(scope, true) in r.value;
      }
    }
  }

  /** A space entry appears exactly when the record has a space sub-record; it carries that
      sub-record, no user, and the caller's table or namespace. */
  lemma FromQuotasSpace(userName: Option<string>, tableName: Option<TableName>,
                        namespace: Option<string>, quotas: Quotas)
    ensures var r := FromQuotas(userName, tableName, namespace, quotas);
            r.Success? ==>
              && ((exists s :: s in r.value && s.SpaceLimitSettings?) <==> quotas.space.Some?)
              && forall s | s in r.value && s.SpaceLimitSettings? ::
                   && quotas.space.Some?
                   && s == SpaceLimitSettings(Scope(None, tableName, namespace), quotas.space.value)
                   && ExactlyOneTarget(s.scope.tableName, s.scope.namespace)
  {
    var r := FromQuotas(userName, tableName, namespace, quotas);
    if r.Success? {
      FromQuotasParts(userName, tableName, namespace, quotas);
      if quotas.throttle.Some? {
        FromThrottleEntries(userName, tableName, namespace, quotas.throttle.value);
      }
      if quotas.space.Some? {
        assert SpaceLimitSettings(Scope(None, tableName, namespace), quotas.space.value) in r.value;
      }
    }
  }

  /** The throttle entries of a decode are exactly the decoded throttle sub-record: each one
      carries a set field's quota and the caller's scope, and every set field has one. */
  lemma FromQuotasThrottles(userName: Option<string>, tableName: Option<TableName>,
                            namespace: Option<string>, quotas: Quotas)
    ensures var r := FromQuotas(userName, tableName, namespace, quotas);
            r.Success? ==>
              && (forall s | s in r.value && s.ThrottleSettings? ::
                    quotas.throttle.Some? && DecodedFrom(s, Scope(userName, tableName, namespace), quotas.throttle.value))
              && (forall k | quotas.throttle.Some? && Field(quotas.throttle.value, k).Some? ::
                    exists s :: s in r.value && ThrottleTypeOf(s) == Some(k))
  {
    var r := FromQuotas(userName, tableName, namespace, quotas);
    if r.Success? {
      FromQuotasParts(userName, tableName, namespace, quotas);
      var t := ThrottlePart(userName, tableName, namespace, quotas);
      if quotas.throttle.Some? {
        FromThrottleEntries(userName, tableName, namespace, quotas.throttle.value);
        FromThrottleComplete(userName, tableName, namespace, quotas.throttle.value);
        forall k | Field(quotas.throttle.value, k).Some?
          ensures exists s :: s in r.value && ThrottleTypeOf(s) == Some(k)
        {
          var s :| s in t && ThrottleTypeOf(s) == Some(k);
          assert s in r.value;
        }
      }
    }
  }

  /** Every decoded policy but the space entry keeps the caller's scope; the space entry drops
      the user. */
  lemma FromQuotasScopes(userName: Option<string>, tableName: Option<TableName>,
                         namespace: Option<string>, quotas: Quotas)
    ensures var r := FromQuotas(userName, tableName, namespace, quotas);
            r.Success? ==>
              forall s | s in r.value ::
                s.scope == (if s.SpaceLimitSettings? then Scope(None, tableName, namespace)
                            else Scope(userName, tableName, namespace))
  {
    var r := FromQuotas(userName, tableName, namespace, quotas);
    if r.Success? {
      FromQuotasParts(userName, tableName, namespace, quotas);
      if quotas.throttle.Some? {
        FromThrottleEntries(userName, tableName, namespace, quotas.throttle.value);
      }
    }
  }

  // ---------------------------------------------------------------------------------------
  // Builders

  /** Builds a throttle policy: the rate type is set iff `throttleType` is given, and a timed
      quota of `limit` per `timeUnit`, accounted per machine, iff `timeUnit` is given. Leaving
      both out asks for removal; `limit` is never checked. */
  function BuildThrottle(userName: Option<string>, tableName: Option<TableName>, namespace: Option<string>,
                         throttleType: Option<ThrottleType>, limit: Long, timeUnit: Option<TimeUnit>)
    : (r: QuotaSettings)
    ensures r.ThrottleSettings? && r.scope == Scope(userName, tableName, namespace)
    ensures r.proto.throttleType == throttleType
    ensures r.proto.timedQuota.Some? <==> timeUnit.Some?
    ensures r.proto.timedQuota.Some? ==>
              && r.proto.timedQuota.value.softLimit == limit
              && r.proto.timedQuota.value.timeUnit == timeUnit.value
              && r.proto.timedQuota.value.scope == MACHINE
    ensures IsClearIntent(r) <==> throttleType.None? && timeUnit.None?
  {
    var quota := if timeUnit.Some? then Some(MachineQuota(limit, timeUnit.value)) else None;
    ThrottleSettings(Scope(userName, tableName, namespace), ThrottleRequest(throttleType, quota))
  }

  /** The timed quota a "set" builder installs. */
  function MachineQuota(limit: Long, timeUnit: TimeUnit): TimedQuota {
    ToTimedQuota(limit, timeUnit, MACHINE)
  }

  /** Throttles a user everywhere. */
  function ThrottleUser(userName: string, throttleType: ThrottleType, limit: Long, timeUnit: TimeUnit)
    : (r: QuotaSettings)
    ensures r == ThrottleSettings(Scope(Some(userName), None, None),
                                  ThrottleRequest(Some(throttleType), Some(MachineQuota(limit, timeUnit))))
  {
    BuildThrottle(Some(userName), None, None, Some(throttleType), limit, Some(timeUnit))
  }

  /** Throttles a user on a table. */
  function ThrottleUserOnTable(userName: string, tableName: TableName, throttleType: ThrottleType,
                               limit: Long, timeUnit: TimeUnit): (r: QuotaSettings)
    ensures r == ThrottleSettings(Scope(Some(userName), Some(tableName), None),
                                  ThrottleRequest(Some(throttleType), Some(MachineQuota(limit, timeUnit))))
  {
    BuildThrottle(Some(userName), Some(tableName), None, Some(throttleType), limit, Some(timeUnit))
  }

  /** Throttles a user on a namespace. */
  function ThrottleUserOnNamespace(userName: string, namespace: string, throttleType: ThrottleType,
                                   limit: Long, timeUnit: TimeUnit): (r: QuotaSettings)
    ensures r == ThrottleSettings(Scope(Some(userName), None, Some(namespace)),
                                  ThrottleRequest(Some(throttleType), Some(MachineQuota(limit, timeUnit))))
  {
    BuildThrottle(Some(userName), None, Some(namespace), Some(throttleType), limit, Some(timeUnit))
  }

  /** Throttles a table. */
  function ThrottleTable(tableName: TableName, throttleType: ThrottleType, limit: Long, timeUnit: TimeUnit)
    : (r: QuotaSettings)
    ensures r == ThrottleSettings(Scope(None, Some(tableName), None),
                                  ThrottleRequest(Some(throttleType), Some(MachineQuota(limit, timeUnit))))
  {
    BuildThrottle(None, Some(tableName), None, Some(throttleType), limit, Some(timeUnit))
  }

  /** Throttles a namespace. */
  function ThrottleNamespace(namespace: string, throttleType: ThrottleType, limit: Long, timeUnit: TimeUnit)
    : (r: QuotaSettings)
    ensures r == ThrottleSettings(Scope(None, None, Some(namespace)),
                                  ThrottleRequest(Some(throttleType), Some(MachineQuota(limit, timeUnit))))
  {
    BuildThrottle(None, None, Some(namespace), Some(throttleType), limit, Some(timeUnit))
  }

  /** Removes the throttles of a user. */
  function UnthrottleUser(userName: string): (r: QuotaSettings)
    ensures IsClearIntent(r) && r.scope == Scope(Some(userName), None, None)
  {
    BuildThrottle(Some(userName), None, None, None, 0, None)
  }

  /** Removes the throttles of a user on a table. */
  function UnthrottleUserOnTable(userName: string, tableName: TableName): (r: QuotaSettings)
    ensures IsClearIntent(r) && r.scope == Scope(Some(userName), Some(tableName), None)
  {
    BuildThrottle(Some(userName), Some(tableName), None, None, 0, None)
  }

  /** Removes the throttles of a user on a namespace. */
  function UnthrottleUserOnNamespace(userName: string, namespace: string): (r: QuotaSettings)
    ensures IsClearIntent(r) && r.scope == Scope(Some(userName), None, Some(namespace))
  {
    BuildThrottle(Some(userName), None, Some(namespace), None, 0, None)
  }

  /** Removes the throttles of a table. */
  function UnthrottleTable(tableName: TableName): (r: QuotaSettings)
    ensures IsClearIntent(r) && r.scope == Scope(None, Some(tableName), None)
  {
    BuildThrottle(None, Some(tableName), None, None, 0, None)
  }

  /** Removes the throttles of a namespace. */
  function UnthrottleNamespace(namespace: string): (r: QuotaSettings)
    ensures IsClearIntent(r) && r.scope == Scope(None, None, Some(namespace))
  {
    BuildThrottle(None, None, Some(namespace), None, 0, None)
  }

  /** Sets whether a user bypasses the global quotas. */
  function BypassGlobals(userName: string, bypassGlobals: bool): (r: QuotaSettings)
    ensures r.GlobalsSettingsBypass? && r.bypassGlobals == bypassGlobals
    ensures r.scope == Scope(Some(userName), None, None)
    ensures QuotaTypeOf(r) == GLOBAL_BYPASS
  {
    GlobalsSettingsBypass(Scope(Some(userName), None, None), bypassGlobals)
  }

  /** Limits the space used by a table. */
  function LimitTableSpace(tableName: TableName, sizeLimit: Long, violationPolicy: SpaceViolationPolicy)
    : (r: QuotaSettings)
    ensures r.SpaceLimitSettings? && QuotaTypeOf(r) == SPACE
    ensures r.scope == Scope(None, Some(tableName), None)
    ensures r.space.softLimit == sizeLimit && r.space.violationPolicy == violationPolicy
  {
    SpaceLimitSettings(Scope(None, Some(tableName), None), SpaceQuota(sizeLimit, violationPolicy))
  }

  /** Limits the space used by a namespace. */
  function LimitNamespaceSpace(namespace: string, sizeLimit: Long, violationPolicy: SpaceViolationPolicy)
    : (r: QuotaSettings)
    ensures r.SpaceLimitSettings? && QuotaTypeOf(r) == SPACE
    ensures r.scope == Scope(None, None, Some(namespace))
    ensures r.space.softLimit == sizeLimit && r.space.violationPolicy == violationPolicy
  {
    SpaceLimitSettings(Scope(None, None, Some(namespace)), SpaceQuota(sizeLimit, violationPolicy))
  }
}
