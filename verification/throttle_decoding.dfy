/** Decoding of the throttle sub-record: one throttle policy per present rate-type field, in the
    fixed field order. */
module ThrottleDecoding {
  import opened Wrappers
  import opened QuotaProtos
  import opened Settings

  /** The throttle policy for one field, if that field is present. */
  function Present(scope: Scope, k: ThrottleType, field: Option<TimedQuota>): seq<QuotaSettings> {
    if field.Some? then [FromTimedQuota(scope, k, field.value)] else []
  }

  /** Decodes a throttle sub-record under the caller's scope, field by field. */
  function FromThrottle(userName: Option<string>, tableName: Option<TableName>,
                        namespace: Option<string>, throttle: Throttle): (r: seq<QuotaSettings>)
    ensures |r| == CountPresent(throttle, FIELD_ORDER)
    ensures forall s | s in r :: DecodedFrom(s, Scope(userName, tableName, namespace), throttle)
  {
    var scope := Scope(userName, tableName, namespace);
    Present(scope, REQUEST_NUMBER, throttle.reqNum)
    + Present(scope, REQUEST_SIZE, throttle.reqSize)
    + Present(scope, WRITE_NUMBER, throttle.writeNum)
    + Present(scope, WRITE_SIZE, throttle.writeSize)
    + Present(scope, READ_NUMBER, throttle.readNum)
    + Present(scope, READ_SIZE, throttle.readSize)
  }

  /** How many of the fields `ks` are present in `t`. */
  function CountPresent(t: Throttle, ks: seq<ThrottleType>): nat
    decreases |ks|
  {
    if ks == [] then 0
    else (if Field(t, ks[0]).Some? then 1 else 0) + CountPresent(t, ks[1..])
  }

  /** `s` is a throttle policy on `scope` for a present field of `t`, carrying that field's
      timed quota unchanged. */
  predicate DecodedFrom(s: QuotaSettings, scope: Scope, t: Throttle) {
    && s.ThrottleSettings?
    && s.scope == scope
    && s.proto.throttleType.Some?
    && s.proto.timedQuota.Some?
    && Field(t, s.proto.throttleType.value) == s.proto.timedQuota
  }

  /** Rate types listed in strictly increasing field order. */
  predicate Increasing(ks: seq<ThrottleType>) {
    forall i, j | 0 <= i < j < |ks| :: Ordinal(ks[i]) < Ordinal(ks[j])
  }

  /** Reference decoder: walks the fields `ks` in turn and emits a policy for each one present. */
  function DecodeFields(scope: Scope, t: Throttle, ks: seq<ThrottleType>): (r: seq<QuotaSettings>)
    ensures |r| == CountPresent(t, ks)
    decreases |ks|
  {
    if ks == [] then []
    else Present(scope, ks[0], Field(t, ks[0])) + DecodeFields(scope, t, ks[1..])
  }

  /** Each policy of the walk decodes one of the walked fields, which is present. */
  lemma {:induction false} DecodeFieldsEntries(scope: Scope, t: Throttle, ks: seq<ThrottleType>)
    ensures forall s | s in DecodeFields(scope, t, ks) :: DecodedFrom(s, scope, t) && s.proto.throttleType.value in ks
    decreases |ks|
  {
    if ks != [] {
      DecodeFieldsEntries(scope, t, ks[1..]);
      var head := Present(scope, ks[0], Field(t, ks[0]));
      var tail := DecodeFields(scope, t, ks[1..]);
      assert DecodeFields(scope, t, ks) == head + tail;
    }
  }

  /** Each present field among those walked yields a policy. */
  lemma {:induction false} DecodeFieldsComplete(scope: Scope, t: Throttle, ks: seq<ThrottleType>)
    ensures forall k | k in ks && Field(t, k).Some? ::
              exists s :: s in DecodeFields(scope, t, ks) && ThrottleTypeOf(s) == Some(k)
    decreases |ks|
  {
    if ks != [] {
      DecodeFieldsComplete(scope, t, ks[1..]);
      var head := Present(scope, ks[0], Field(t, ks[0]));
      var tail := DecodeFields(scope, t, ks[1..]);
      assert DecodeFields(scope, t, ks) == head + tail;
      forall k | k in ks && Field(t, k).Some?
        ensures exists s :: s in head + tail && ThrottleTypeOf(s) == Some(k)
      {
        if k == ks[0] {
          assert ThrottleTypeOf(head[0]) == Some(k);
          assert head[0] in head + tail;
        } else {
          assert k in ks[1..];
        }
      }
    }
  }

  /** Walking the fields in increasing order yields policies in increasing rank. */
  lemma {:induction false} DecodeFieldsOrder(scope: Scope, t: Throttle, ks: seq<ThrottleType>)
    requires Increasing(ks)
    ensures StrictlyRanked(DecodeFields(scope, t, ks))
    decreases |ks|
  {
    if ks != [] {
      assert Increasing(ks[1..]);
      DecodeFieldsOrder(scope, t, ks[1..]);
      DecodeFieldsEntries(scope, t, ks[1..]);
      var head := Present(scope, ks[0], Field(t, ks[0]));
      var tail := DecodeFields(scope, t, ks[1..]);
      if head != [] {
        forall i | 0 <= i < |tail|
          ensures Rank(head[0]) < Rank(tail[i])
        {
          assert tail[i] in tail;
          var m :| 0 <= m < |ks[1..]| && ks[1..][m] == tail[i].proto.throttleType.value;
          assert ks[m + 1] == ks[1..][m];
        }
        forall i, j | 0 <= i < j < |head + tail|
          ensures Rank((head + tail)[i]) < Rank((head + tail)[j])
        {
          assert (head + tail)[j] == tail[j - 1];
          if i > 0 {
            assert (head + tail)[i] == tail[i - 1];
          }
        }
      }
    }
  }

  /** At most `|ks|` of the fields `ks` can be present. */
  lemma {:induction false} CountPresentAtMost(t: Throttle, ks: seq<ThrottleType>)
    ensures CountPresent(t, ks) <= |ks|
    decreases |ks|
  {
    if ks != [] {
      CountPresentAtMost(t, ks[1..]);
    }
  }

  /** The field order lists each rate type at its ordinal, so it is increasing. */
  lemma FieldOrderIncreasing()
    ensures Increasing(FIELD_ORDER)
  {
    forall i | 0 <= i < |FIELD_ORDER|
      ensures Ordinal(FIELD_ORDER[i]) == i
    {
    }
  }

  lemma AppendAssoc<T>(a: seq<T>, b: seq<T>, c: seq<T>)
    ensures a + (b + c) == a + b + c
  {
  }

  /** One step of the walk: the first field, then the rest. */
  lemma DecodeFieldsCons(scope: Scope, t: Throttle, k: ThrottleType, ks: seq<ThrottleType>)
    ensures DecodeFields(scope, t, [k] + ks) == Present(scope, k, Field(t, k)) + DecodeFields(scope, t, ks)
  {
    assert ([k] + ks)[1..] == ks;
  }

  /** The straight-line decoder is the field walk over the fixed field order. */
  lemma FieldWalk(userName: Option<string>, tableName: Option<TableName>,
                  namespace: Option<string>, throttle: Throttle)
    ensures FromThrottle(userName, tableName, namespace, throttle)
         == DecodeFields(Scope(userName, tableName, namespace), throttle, FIELD_ORDER)
  {
    var scope := Scope(userName, tableName, namespace);
    DecodeFieldsCons(scope, throttle, READ_SIZE, []);
    DecodeFieldsCons(scope, throttle, READ_NUMBER, [READ_SIZE]);
    DecodeFieldsCons(scope, throttle, WRITE_SIZE, [READ_NUMBER, READ_SIZE]);
    DecodeFieldsCons(scope, throttle, WRITE_NUMBER, [WRITE_SIZE, READ_NUMBER, READ_SIZE]);
    DecodeFieldsCons(scope, throttle, REQUEST_SIZE, [WRITE_NUMBER, WRITE_SIZE, READ_NUMBER, READ_SIZE]);
    DecodeFieldsCons(scope, throttle, REQUEST_NUMBER,
                     [REQUEST_SIZE, WRITE_NUMBER, WRITE_SIZE, READ_NUMBER, READ_SIZE]);
    assert [READ_SIZE] == [READ_SIZE] + [];
    assert FIELD_ORDER == [REQUEST_NUMBER] + [REQUEST_SIZE, WRITE_NUMBER, WRITE_SIZE, READ_NUMBER, READ_SIZE];
    var rs := Present(scope, READ_SIZE, throttle.readSize);
    var rn := Present(scope, READ_NUMBER, throttle.readNum);
    var ws := Present(scope, WRITE_SIZE, throttle.writeSize);
    var wn := Present(scope, WRITE_NUMBER, throttle.writeNum);
    var qs := Present(scope, REQUEST_SIZE, throttle.reqSize);
    var qn := Present(scope, REQUEST_NUMBER, throttle.reqNum);
    assert DecodeFields(scope, throttle, FIELD_ORDER) == qn + (qs + (wn + (ws + (rn + (rs + [])))));
    assert FromThrottle(userName, tableName, namespace, throttle) == qn + qs + wn + ws + rn + rs;
    assert rs + [] == rs;
    AppendAssoc(qn, qs, wn + (ws + (rn + rs)));
    AppendAssoc(qn + qs, wn, ws + (rn + rs));
    AppendAssoc(qn + qs + wn, ws, rn + rs);
    AppendAssoc(qn + qs + wn + ws, rn, rs);
  }

  /** One policy per present field, so never more than six. */
  lemma FromThrottleLength(userName: Option<string>, tableName: Option<TableName>,
                           namespace: Option<string>, throttle: Throttle)
    ensures |FromThrottle(userName, tableName, namespace, throttle)| == CountPresent(throttle, FIELD_ORDER)
    ensures |FromThrottle(userName, tableName, namespace, throttle)| <= 6
  {
    FieldWalk(userName, tableName, namespace, throttle);
    CountPresentAtMost(throttle, FIELD_ORDER);
  }

  /** Every decoded policy throttles a present field with that field's quota, under the caller's
      unchanged scope. */
  lemma FromThrottleEntries(userName: Option<string>, tableName: Option<TableName>,
                            namespace: Option<string>, throttle: Throttle)
    ensures forall s | s in FromThrottle(userName, tableName, namespace, throttle) ::
              DecodedFrom(s, Scope(userName, tableName, namespace), throttle)
  {
    FieldWalk(userName, tableName, namespace, throttle);
    DecodeFieldsEntries(Scope(userName, tableName, namespace), throttle, FIELD_ORDER);
  }

  /** Every present field yields a policy. */
  lemma FromThrottleComplete(userName: Option<string>, tableName: Option<TableName>,
                             namespace: Option<string>, throttle: Throttle)
    ensures forall k | Field(throttle, k).Some? ::
              exists s :: s in FromThrottle(userName, tableName, namespace, throttle) && ThrottleTypeOf(s) == Some(k)
  {
    FieldWalk(userName, tableName, namespace, throttle);
    DecodeFieldsComplete(Scope(userName, tableName, namespace), throttle, FIELD_ORDER);
    forall k | Field(throttle, k).Some?
      ensures k in FIELD_ORDER
    {
      assert FIELD_ORDER[Ordinal(k)] == k;
    }
  }

  /** Decoded policies follow the field order REQUEST_NUMBER, REQUEST_SIZE, WRITE_NUMBER,
      WRITE_SIZE, READ_NUMBER, READ_SIZE, with no rate type twice. */
  lemma FromThrottleOrder(userName: Option<string>, tableName: Option<TableName>,
                          namespace: Option<string>, throttle: Throttle)
    ensures StrictlyRanked(FromThrottle(userName, tableName, namespace, throttle))
  {
    FieldWalk(userName, tableName, namespace, throttle);
    FieldOrderIncreasing();
    DecodeFieldsOrder(Scope(userName, tableName, namespace), throttle, FIELD_ORDER);
  }
}
