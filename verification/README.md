# HBase quota settings factory, modelled in Dafny

This project models the decode-and-construct layer of the HBase client's quota API
(`QuotaSettingsFactory`). The layer does two things:

- **Decoding.** A stored `Quotas` record has an optional throttle sub-record, an optional bypass
  flag and an optional space sub-record. Decoding it under a caller scope (user, table,
  namespace) gives an ordered list of quota policies. The throttle sub-record has six optional
  timed-quota fields. Each policy is a `ThrottleSettings`, a `QuotaGlobalsSettingsBypass` or a
  `SpaceLimitSettings`.
- **Building.** The public builders (`throttleUser`, `unthrottleTable`, `bypassGlobals`,
  `limitTableSpace`, ...) each construct a single policy. Each fixes which scope fields are set.

Files:

- `wrappers.dfy`: `Option` and `Result`. They stand in for Java nulls and thrown exceptions.
- `quota_protos.dfy`: the protobuf records as plain datatypes. Java `long` is the subset type
  `Long`. It also has the field accessor and the fixed field order of the throttle sub-record.
- `settings.dfy`: the policy sum type `QuotaSettings`, its `Scope`, the kind each variant reports,
  and the request set-up of the bypass variant.
- `throttle_decoding.dfy`: `fromThrottle` is written straight-line, as in `QuotaSettingsFactory.java`. An
  independent recursive walk over the field order is the reference. A lemma proves that the two
  agree, and the count, content, completeness and order properties are proved on the walk.
- `quota_settings_factory.dfy`: `fromSpace`, `fromQuotas`, the scope wrappers, the decoder's
  properties and all the builders.
- `factory_properties.dfy`: lemmas relating the builders to the decoder.

The order of a decoded list is stated with a rank:

- throttle entries rank 0 to 5, in the field order REQUEST_NUMBER, REQUEST_SIZE, WRITE_NUMBER,
  WRITE_SIZE, READ_NUMBER, READ_SIZE;
- the bypass entry ranks 6;
- the space entry ranks 7.

"Strictly ranked" therefore says three things: throttles come before the bypass entry, which
comes before the space entry; the throttles follow the field order; and no rank appears twice.

## Model

| member | source | states |
|---|---|---|
| QuotaProtos.GetBypassGlobals | hbase-client/src/main/java/org/apache/hadoop/hbase/quotas/QuotaSettingsFactory.java:92 | the decoder reads the bypass flag as true exactly when the field is set to true; an unset field reads as false |
| Settings.QuotaTypeOf | hbase-client/src/main/java/org/apache/hadoop/hbase/quotas/QuotaSettingsFactory.java:45-48 | the bypass variant reports GLOBAL_BYPASS and only it does; throttle and space variants report THROTTLE and SPACE |
| Settings.SetupSetQuotaRequest | hbase-client/src/main/java/org/apache/hadoop/hbase/quotas/QuotaSettingsFactory.java:50-53 | a bypass policy writes its flag into the request's bypass field and leaves the throttle and space fields as they were |
| ThrottleDecoding.FromThrottle | hbase-client/src/main/java/org/apache/hadoop/hbase/quotas/QuotaSettingsFactory.java:101-129 | decodes the throttle sub-record into one policy per present field; every policy is a throttle for a present field, carrying that field's timed quota and the caller's unchanged user, table and namespace |
| ThrottleDecoding.DecodeFields | hbase-client/src/main/java/org/apache/hadoop/hbase/quotas/QuotaSettingsFactory.java:101-129 | the reference walk emits exactly as many policies as there are present fields among those walked |
| ThrottleDecoding.DecodeFieldsEntries | hbase-client/src/main/java/org/apache/hadoop/hbase/quotas/QuotaSettingsFactory.java:104-127 | every policy of the walk is a throttle on the given scope for a walked, present field, carrying that field's timed quota |
| ThrottleDecoding.DecodeFieldsComplete | hbase-client/src/main/java/org/apache/hadoop/hbase/quotas/QuotaSettingsFactory.java:104-127 | every present field among those walked has a policy naming its rate type |
| ThrottleDecoding.DecodeFieldsOrder | hbase-client/src/main/java/org/apache/hadoop/hbase/quotas/QuotaSettingsFactory.java:101-129 | walking fields in increasing field order yields policies in strictly increasing rank |
| ThrottleDecoding.CountPresentAtMost | hbase-client/src/main/java/org/apache/hadoop/hbase/quotas/QuotaSettingsFactory.java:101-129 | at most as many fields are present as are walked |
| ThrottleDecoding.FieldWalk | hbase-client/src/main/java/org/apache/hadoop/hbase/quotas/QuotaSettingsFactory.java:101-129 | the six-step decoder equals the walk over the fixed field order |
| ThrottleDecoding.FieldOrderIncreasing | hbase-client/src/main/java/org/apache/hadoop/hbase/quotas/QuotaSettingsFactory.java:104-127 | the fixed field order lists each rate type once, in increasing order |
| ThrottleDecoding.FromThrottleLength | hbase-client/src/main/java/org/apache/hadoop/hbase/quotas/QuotaSettingsFactory.java:101-129 | the throttle decoder yields one policy per present field, so at most six |
| ThrottleDecoding.FromThrottleEntries | hbase-client/src/main/java/org/apache/hadoop/hbase/quotas/QuotaSettingsFactory.java:104-127 | each decoded throttle names a present field's rate type, carries that field's quota unchanged, and has the caller's unchanged user, table and namespace |
| ThrottleDecoding.FromThrottleComplete | hbase-client/src/main/java/org/apache/hadoop/hbase/quotas/QuotaSettingsFactory.java:104-127 | every present field of the throttle sub-record yields a policy |
| ThrottleDecoding.FromThrottleOrder | hbase-client/src/main/java/org/apache/hadoop/hbase/quotas/QuotaSettingsFactory.java:101-129 | decoded throttles follow REQUEST_NUMBER, REQUEST_SIZE, WRITE_NUMBER, WRITE_SIZE, READ_NUMBER, READ_SIZE with no rate type twice |
| QuotaSettingsFactory.FromSpace | hbase-client/src/main/java/org/apache/hadoop/hbase/quotas/QuotaSettingsFactory.java:131-142 | fails with the illegal-argument error exactly when table and namespace are both absent or both present; otherwise yields a space limit with no user and the given table or namespace, carrying the sub-record |
| QuotaSettingsFactory.FromQuotas | hbase-client/src/main/java/org/apache/hadoop/hbase/quotas/QuotaSettingsFactory.java:86-99 | the decode fails exactly when the record has a space sub-record and the scope does not name exactly one of a table and a namespace; no partial list is returned |
| QuotaSettingsFactory.FromUserQuotas | hbase-client/src/main/java/org/apache/hadoop/hbase/quotas/QuotaSettingsFactory.java:64-66 | a user-only decode fails exactly when the record has a space sub-record; otherwise every policy is scoped to the user alone |
| QuotaSettingsFactory.FromUserTableQuotas | hbase-client/src/main/java/org/apache/hadoop/hbase/quotas/QuotaSettingsFactory.java:68-71 | a user-on-table decode never fails; throttle and bypass policies keep user and table, and the space policy keeps only the table |
| QuotaSettingsFactory.FromUserNamespaceQuotas | hbase-client/src/main/java/org/apache/hadoop/hbase/quotas/QuotaSettingsFactory.java:73-76 | a user-on-namespace decode never fails; throttle and bypass policies keep user and namespace, and the space policy keeps only the namespace |
| QuotaSettingsFactory.FromTableQuotas | hbase-client/src/main/java/org/apache/hadoop/hbase/quotas/QuotaSettingsFactory.java:78-80 | a table decode never fails and every policy is scoped to the table alone |
| QuotaSettingsFactory.FromNamespaceQuotas | hbase-client/src/main/java/org/apache/hadoop/hbase/quotas/QuotaSettingsFactory.java:82-84 | a namespace decode never fails and every policy is scoped to the namespace alone |
| QuotaSettingsFactory.FromQuotasLength | hbase-client/src/main/java/org/apache/hadoop/hbase/quotas/QuotaSettingsFactory.java:86-99 | a successful decode has the throttle count plus one for a true bypass flag plus one for a space sub-record; a record with none of the three decodes to the empty list |
| QuotaSettingsFactory.FromQuotasOrder | hbase-client/src/main/java/org/apache/hadoop/hbase/quotas/QuotaSettingsFactory.java:86-99 | a decoded list is strictly ranked: throttles in field order, then at most one bypass entry, then at most one space entry |
| QuotaSettingsFactory.FromQuotasBypass | hbase-client/src/main/java/org/apache/hadoop/hbase/quotas/QuotaSettingsFactory.java:92-94 | a bypass entry is present exactly when the flag is true, and it always carries true and the caller's scope |
| QuotaSettingsFactory.FromQuotasSpace | hbase-client/src/main/java/org/apache/hadoop/hbase/quotas/QuotaSettingsFactory.java:95-97 | a space entry is present exactly when the record has a space sub-record; it carries that sub-record and no user, and names exactly one of a table and a namespace |
| QuotaSettingsFactory.FromQuotasThrottles | hbase-client/src/main/java/org/apache/hadoop/hbase/quotas/QuotaSettingsFactory.java:89-91 | the throttle entries of a decode are exactly those of the throttle sub-record: each carries a present field's quota and the caller's scope, and each present field has one |
| QuotaSettingsFactory.FromQuotasScopes | hbase-client/src/main/java/org/apache/hadoop/hbase/quotas/QuotaSettingsFactory.java:86-99 | every decoded policy keeps the caller's scope, except the space entry, which drops the user |
| QuotaSettingsFactory.BuildThrottle | hbase-client/src/main/java/org/apache/hadoop/hbase/quotas/QuotaSettingsFactory.java:273-284 | the rate type is set iff one is given; the timed quota is set iff a time unit is given and then holds the limit, the unit and MACHINE scope; the limit is not checked; the result is a removal request iff both are left out |
| QuotaSettingsFactory.ThrottleUser | hbase-client/src/main/java/org/apache/hadoop/hbase/quotas/QuotaSettingsFactory.java:157-160 | throttles the user alone with the given rate type and a machine-scoped quota of limit per unit |
| QuotaSettingsFactory.ThrottleUserOnTable | hbase-client/src/main/java/org/apache/hadoop/hbase/quotas/QuotaSettingsFactory.java:172-175 | throttles the user on the table, with no namespace |
| QuotaSettingsFactory.ThrottleUserOnNamespace | hbase-client/src/main/java/org/apache/hadoop/hbase/quotas/QuotaSettingsFactory.java:187-190 | throttles the user on the namespace, with no table |
| QuotaSettingsFactory.ThrottleTable | hbase-client/src/main/java/org/apache/hadoop/hbase/quotas/QuotaSettingsFactory.java:233-236 | throttles the table, with no user or namespace |
| QuotaSettingsFactory.ThrottleNamespace | hbase-client/src/main/java/org/apache/hadoop/hbase/quotas/QuotaSettingsFactory.java:257-260 | throttles the namespace, with no user or table |
| QuotaSettingsFactory.UnthrottleUser | hbase-client/src/main/java/org/apache/hadoop/hbase/quotas/QuotaSettingsFactory.java:198-200 | a removal request (no rate type, no quota) scoped to the user alone |
| QuotaSettingsFactory.UnthrottleUserOnTable | hbase-client/src/main/java/org/apache/hadoop/hbase/quotas/QuotaSettingsFactory.java:209-211 | a removal request scoped to the user on the table |
| QuotaSettingsFactory.UnthrottleUserOnNamespace | hbase-client/src/main/java/org/apache/hadoop/hbase/quotas/QuotaSettingsFactory.java:220-222 | a removal request scoped to the user on the namespace |
| QuotaSettingsFactory.UnthrottleTable | hbase-client/src/main/java/org/apache/hadoop/hbase/quotas/QuotaSettingsFactory.java:244-246 | a removal request scoped to the table alone |
| QuotaSettingsFactory.UnthrottleNamespace | hbase-client/src/main/java/org/apache/hadoop/hbase/quotas/QuotaSettingsFactory.java:268-270 | a removal request scoped to the namespace alone |
| QuotaSettingsFactory.BypassGlobals | hbase-client/src/main/java/org/apache/hadoop/hbase/quotas/QuotaSettingsFactory.java:297-299 | a bypass policy scoped to the user alone that keeps the given flag and reports GLOBAL_BYPASS |
| QuotaSettingsFactory.LimitTableSpace | hbase-client/src/main/java/org/apache/hadoop/hbase/quotas/QuotaSettingsFactory.java:315-318 | a space limit on the table alone, keeping the size limit and violation policy verbatim |
| QuotaSettingsFactory.LimitNamespaceSpace | hbase-client/src/main/java/org/apache/hadoop/hbase/quotas/QuotaSettingsFactory.java:330-333 | a space limit on the namespace alone, keeping the size limit and violation policy verbatim |
| FactoryProperties.ThrottleBuilderAgreesWithDecoder | hbase-client/src/main/java/org/apache/hadoop/hbase/quotas/QuotaSettingsFactory.java:273-284 | a throttle sub-record with one field set, to a machine-scoped quota, decodes to exactly the one policy the throttle helper builds for that rate type, limit and unit |
| FactoryProperties.UserTableThrottleDecodesToBuilder | hbase-client/src/main/java/org/apache/hadoop/hbase/quotas/QuotaSettingsFactory.java:172-175 | a user-on-table record with one throttle field decodes to the single policy that throttling that user on that table builds |
| FactoryProperties.SpaceBuildersAgreeWithDecoder | hbase-client/src/main/java/org/apache/hadoop/hbase/quotas/QuotaSettingsFactory.java:131-142 | a space sub-record decodes, under a table or a namespace alone, to what the table or namespace space builder returns |
| FactoryProperties.BypassBuilderAgreesWithDecoder | hbase-client/src/main/java/org/apache/hadoop/hbase/quotas/QuotaSettingsFactory.java:92-94 | a user record whose flag is true decodes to the bypass builder's policy for true; an unset or false flag decodes to nothing |
| FactoryProperties.DecoderNeverClears | hbase-client/src/main/java/org/apache/hadoop/hbase/quotas/QuotaSettingsFactory.java:101-129 | no decoded policy is a removal request |

## Left out

- Protobuf classes and the `ProtobufUtil` conversions are plain records and constructor functions here. The Java and protobuf enumerations (`ThrottleType`, `TimeUnit`) are one enumeration each, so the conversion between them is the identity. Their wire encoding is not modelled.
- `ThrottleSettings`, `SpaceLimitSettings` and `QuotaSettings` are not part of this model. Their constructors and `fromTimedQuota`/`fromSpaceQuota` are modelled as storing their arguments. Any checks they make are not modelled.
- Settings.QuotaTypeOf: only the GLOBAL_BYPASS answer comes from this file. THROTTLE and SPACE for the other two variants are assumed from their names.
- No decode-of-encode round trip is claimed. Turning a policy into a stored record happens outside this file. The agreement lemmas build the stored record by hand instead.
- `toString` of the bypass variant is left out. It is string formatting only.
- The RPC request is reduced to the three fields the policies fill in. Only the bypass variant's set-up appears in this file, so only it is modelled.
- Java `null` for the reference parameters of the public wrappers is not modelled. User, table, namespace, rate type and time unit are non-optional there. The private `throttle` helper and `fromQuotas` take optional values, as in Java.
- Time-unit semantics, quota enforcement and the master-side RPC path are not modelled.
- There is no general rule rejecting a table and a namespace together. The code enforces exclusivity only in `fromSpace`. So `fromQuotas` with both set decodes throttles and the bypass entry under that scope, and fails only when a space sub-record is present. The code is followed here.
- A decoded bypass entry keeps the caller's full scope, table and namespace included. The code is followed here. Only the `bypassGlobals` builder restricts it to the user.
