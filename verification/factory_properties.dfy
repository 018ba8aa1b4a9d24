/** How the builders relate to the decoder: a stored record that holds exactly what a builder
    installs decodes back to the policy that builder returns. */
module FactoryProperties {
  import opened Wrappers
  import opened QuotaProtos
  import opened Settings
  import opened ThrottleDecoding
  import opened QuotaSettingsFactory

  /** A throttle sub-record with one field set decodes to the single policy the throttle
      builder returns for that rate type, limit and period. */
  lemma ThrottleBuilderAgreesWithDecoder(userName: Option<string>, tableName: Option<TableName>,
                                         namespace: Option<string>, k: ThrottleType,
                                         limit: Long, timeUnit: TimeUnit)
    ensures FromThrottle(userName, tableName, namespace, OnlyField(k, MachineQuota(limit, timeUnit)))
         == [BuildThrottle(userName, tableName, namespace, Some(k), limit, Some(timeUnit))]
  {
  }

  /** A user's record on a table holding one throttle field decodes to exactly the policy
      that throttling that user on that table builds. */
  lemma UserTableThrottleDecodesToBuilder(userName: string, tableName: TableName, k: ThrottleType,
                                             limit: Long, timeUnit: TimeUnit)
    ensures FromUserTableQuotas(userName, tableName,
                                Quotas(None, Some(OnlyField(k, MachineQuota(limit, timeUnit))), None))
         == Success([ThrottleUserOnTable(userName, tableName, k, limit, timeUnit)])
  {
    var q := Quotas(None, Some(OnlyField(k, MachineQuota(limit, timeUnit))), None);
    var b := BuildThrottle(Some(userName), Some(tableName), None, Some(k), limit, Some(timeUnit));
    FromQuotasParts(Some(userName), Some(tableName), None, q);
    ThrottleBuilderAgreesWithDecoder(Some(userName), Some(tableName), None, k, limit, timeUnit);
    assert [b] + [] + [] == [b];
  }

  /** A space sub-record decodes, under a table or a namespace alone, to what the matching
      space builder returns. */
  lemma SpaceBuildersAgreeWithDecoder(tableName: TableName, namespace: string, sizeLimit: Long,
                                      violationPolicy: SpaceViolationPolicy)
    ensures FromTableQuotas(tableName, Quotas(None, None, Some(SpaceQuota(sizeLimit, violationPolicy))))
         == Success([LimitTableSpace(tableName, sizeLimit, violationPolicy)])
    ensures FromNamespaceQuotas(namespace, Quotas(None, None, Some(SpaceQuota(sizeLimit, violationPolicy))))
         == Success([LimitNamespaceSpace(namespace, sizeLimit, violationPolicy)])
  {
    var q := Quotas(None, None, Some(SpaceQuota(sizeLimit, violationPolicy)));
    FromQuotasParts(None, Some(tableName), None, q);
    FromQuotasParts(None, None, Some(namespace), q);
    var e: seq<QuotaSettings> := [];
    assert e + e + [LimitTableSpace(tableName, sizeLimit, violationPolicy)]
        == [LimitTableSpace(tableName, sizeLimit, violationPolicy)];
    assert e + e + [LimitNamespaceSpace(namespace, sizeLimit, violationPolicy)]
        == [LimitNamespaceSpace(namespace, sizeLimit, violationPolicy)];
  }

  /** A user's record with the bypass flag set decodes to what the bypass builder returns for
      `true`; with the flag unset or false it decodes to nothing, so the builder's `false`
      policy never comes back from a record. */
  lemma BypassBuilderAgreesWithDecoder(userName: string, flag: Option<bool>)
    ensures FromUserQuotas(userName, Quotas(flag, None, None))
         == if flag == Some(true) then Success([BypassGlobals(userName, true)]) else Success([])
  {
    FromQuotasParts(Some(userName), None, None, Quotas(flag, None, None));
    var e: seq<QuotaSettings> := [];
    assert e + [BypassGlobals(userName, true)] + e == [BypassGlobals(userName, true)];
    assert e + e + e == e;
  }

  /** The decoder never yields a removal request: every decoded throttle names a rate type and
      carries a quota. */
  lemma DecoderNeverClears(userName: Option<string>, tableName: Option<TableName>,
                           namespace: Option<string>, quotas: Quotas)
    ensures var r := FromQuotas(userName, tableName, namespace, quotas);
            r.Success? ==> forall s | s in r.value :: !IsClearIntent(s)
  {
    FromQuotasThrottles(userName, tableName, namespace, quotas);
  }
}
