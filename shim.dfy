/**
 * The operations that the two copies of the shim (the injectable service and
 * the exported `prisma` object) implement in the same way. Each builds its
 * chain by reassigning a local step by step, hands it to the store and
 * normalises the reply; `store` stands for the awaited request.
 */
module Shim {
  import opened Wrappers
  import opened Values
  import opened Builder
  import opened Store
  import opened Normalise
  import opened Descriptors

  /** User.findUnique: select, `eq` on each truthy key in source order, `.single()`; not-found is `null`. */
  method UserFindUnique(args: UserFindUniqueArgs, store: Query -> RowReply) returns (q: Query, r: Outcome<Option<Row>>)
    ensures q.table == "User"
    ensures q.chain == [Select(Columns(args.select))]
                       + EqWhen("id", args.where.id) + EqWhen("phoneNumber", args.where.phoneNumber) + [Single]
    ensures IsRead(q.chain) && EndsSingle(q.chain) && Unwindowed(q.chain)
    ensures forall row :: Admits(q.chain, row) <==>
              AgreesWhen(row, "id", args.where.id) && AgreesWhen(row, "phoneNumber", args.where.phoneNumber)
    ensures r == ReadOne(store(q))
  {
    var selectFields := if args.select.Some? then Join(SelectedKeys(args.select.value), ",") else "*";
    var query := [Select(selectFields)];
    if Truthy(args.where.id) {
      query := query + [Eq("id", args.where.id)];
    }
    if Truthy(args.where.phoneNumber) {
      query := query + [Eq("phoneNumber", args.where.phoneNumber)];
    }
    q := Query("User", query + [Single]);
    forall row ensures Admits(q.chain, row) <==>
        AgreesWhen(row, "id", args.where.id) && AgreesWhen(row, "phoneNumber", args.where.phoneNumber) {
      var a, b, c := [Select(Columns(args.select))], EqWhen("id", args.where.id), EqWhen("phoneNumber", args.where.phoneNumber);
      assert q.chain == a + b + c + [Single];
      AdmitsAppendAll();
      AdmitsSingleton(Single, row);
      AdmitsSingleton(a[0], row);
      AdmitsEqWhen("id", args.where.id, row);
      AdmitsEqWhen("phoneNumber", args.where.phoneNumber, row);
    }
    r := ReadOne(store(q));
  }

  /** `let selectFields = '*'; if (select) selectFields = <truthy keys>.join(',')`. */
  method SelectStep(select: Option<Obj>) returns (selectFields: string)
    ensures selectFields == Columns(select)
  {
    selectFields := "*";
    if select.Some? {
      selectFields := Join(SelectedKeys(select.value), ",");
    }
  }

  /**
   * The `orderBy` step shared by the list reads: the first key of the object
   * names the column, ascending unless its value is `'desc'`.
   */
  method OrderStep(query: seq<Op>, orderBy: Option<Obj>) returns (r: seq<Op>)
    ensures r == query + OrderBy(orderBy)
    ensures |r| == |query| + (if orderBy.Some? then 1 else 0)
    ensures orderBy.Some? && orderBy.value != [] ==>
              r[|query|] == Order(Some(orderBy.value[0].0), orderBy.value[0].1 != Str("desc"))
  {
    r := query;
    if orderBy.Some? {
      var o := orderBy.value;
      var fieldName: Option<string> := if |o| > 0 then Some(o[0].0) else None;
      var direction := Get(o, fieldName.GetOr("undefined")) == Str("desc");
      r := r + [Order(fieldName, !direction)];
    }
  }

  /** User.findMany: optional `in` on role, optional order; a missing list is `[]`. */
  method UserFindMany(args: UserFindManyArgs, store: Query -> RowsReply) returns (q: Query, r: Outcome<seq<Row>>)
    ensures q == Query("User", [Select(Columns(args.select))] + InWhen("role", args.roleIn) + OrderBy(args.orderBy))
    ensures IsRead(q.chain) && Unwindowed(q.chain)
    ensures forall row :: Admits(q.chain, row) <==> WithinWhen(row, "role", args.roleIn)
    ensures r == ListOrEmpty(store(q))
  {
    var selectFields := SelectStep(args.select);
    var query := [Select(selectFields)];
    if args.roleIn.Some? {
      query := query + [In("role", args.roleIn.value)];
    }
    query := OrderStep(query, args.orderBy);
    q := Query("User", query);
    forall row ensures Admits(q.chain, row) <==> WithinWhen(row, "role", args.roleIn) {
      var a, b, c := [Select(Columns(args.select))], InWhen("role", args.roleIn), OrderBy(args.orderBy);
      assert q.chain == a + b + c;
      AdmitsAppendAll();
      AdmitsSingleton(a[0], row);
      AdmitsInWhen("role", args.roleIn, row);
      AdmitsOrderBy(args.orderBy, row);
    }
    r := ListOrEmpty(store(q));
  }

  /**
   * `create` of every model: insert the one row, read it back with `.select().single()`;
   * any error, the sentinel included, is thrown.
   */
  method Create(table: string, data: Row, store: Query -> RowReply) returns (q: Query, r: Outcome<Option<Row>>)
    ensures q == Query(table, [Insert([data]), Select(Wildcard), Single])
    ensures IsMutation(q.chain) && EndsSingle(q.chain)
    ensures r == WriteOne(store(q))
  {
    q := Query(table, [Insert([data])] + [Select("*")] + [Single]);
    r := WriteOne(store(q));
  }

  /** User.update: `eq` on each truthy key, then the single updated row; any error is thrown. */
  method UserUpdate(args: UserUpdateArgs, store: Query -> RowReply) returns (q: Query, r: Outcome<Option<Row>>)
    ensures q == Query("User", [Update(args.data)] + EqWhen("id", args.where.id)
                               + EqWhen("phoneNumber", args.where.phoneNumber) + [Select(Wildcard), Single])
    ensures IsMutation(q.chain) && EndsSingle(q.chain)
    ensures forall row :: Admits(q.chain, row) <==>
              AgreesWhen(row, "id", args.where.id) && AgreesWhen(row, "phoneNumber", args.where.phoneNumber)
    ensures r == WriteOne(store(q))
  {
    var query := [Update(args.data)];
    if Truthy(args.where.id) {
      query := query + [Eq("id", args.where.id)];
    }
    if Truthy(args.where.phoneNumber) {
      query := query + [Eq("phoneNumber", args.where.phoneNumber)];
    }
    q := Query("User", query + [Select("*")] + [Single]);
    forall row ensures Admits(q.chain, row) <==>
        AgreesWhen(row, "id", args.where.id) && AgreesWhen(row, "phoneNumber", args.where.phoneNumber) {
      var a, b, c := [Update(args.data)], EqWhen("id", args.where.id), EqWhen("phoneNumber", args.where.phoneNumber);
      assert q.chain == a + b + c + [Select(Wildcard)] + [Single];
      AdmitsAppendAll();
      AdmitsSingleton(a[0], row);
      AdmitsSingleton(Select(Wildcard), row);
      AdmitsSingleton(Single, row);
      AdmitsEqWhen("id", args.where.id, row);
      AdmitsEqWhen("phoneNumber", args.where.phoneNumber, row);
    }
    r := WriteOne(store(q));
  }

  /** User.delete: `eq('id', id)` is sent whatever `id` is; the result is `{ id }`, not the deleted row. */
  method UserDelete(id: Value, store: Query -> RowsReply) returns (q: Query, r: Outcome<Obj>)
    ensures q == Query("User", [Delete, Eq("id", id)])
    ensures IsMutation(q.chain) && Select(Wildcard) !in q.chain
    ensures forall row :: Admits(q.chain, row) <==> id != Null && Column(row, "id") == id
    ensures r == Acknowledge(store(q), [("id", id)])
  {
    q := Query("User", [Delete] + [Eq("id", id)]);
    forall row ensures Admits(q.chain, row) <==> id != Null && Column(row, "id") == id {
      AdmitsAppendAll();
      AdmitsSingleton(Delete, row);
      AdmitsSingleton(Eq("id", id), row);
    }
    r := Acknowledge(store(q), [("id", id)]);
  }

  /** The OTP filters of findFirst: truthy phone number and code, `isUsed` unless undefined, expiry bound. */
  predicate OtpAdmits(row: Row, args: OtpFindFirstArgs) {
    AgreesWhen(row, "phoneNumber", args.phoneNumber) && AgreesWhen(row, "otp", args.otp) &&
    AgreesUnlessUndefined(row, "isUsed", args.isUsed) && After(row, "expiresAt", args.expiresAtGt)
  }

  function OtpFilters(args: OtpFindFirstArgs): seq<Op> {
    EqWhen("phoneNumber", args.phoneNumber) + EqWhen("otp", args.otp)
    + EqUnlessUndefined("isUsed", args.isUsed) + GtWhen("expiresAt", args.expiresAtGt)
  }

  lemma AdmitsOtpFilters(args: OtpFindFirstArgs, row: Row)
    ensures Admits(OtpFilters(args), row) <==> OtpAdmits(row, args)
  {
    AdmitsAppendAll();
    AdmitsEqWhen("phoneNumber", args.phoneNumber, row);
    AdmitsEqWhen("otp", args.otp, row);
    AdmitsEqUnlessUndefined("isUsed", args.isUsed, row);
    AdmitsBounds("expiresAt", args.expiresAtGt, row);
  }

  /** Helper for `OtpFindFirst`: the OTP filters make no window call. */
  lemma OtpFiltersUnwindowed(args: OtpFindFirstArgs)
    ensures Unwindowed(OtpFilters(args))
  {
    var a, b := EqWhen("phoneNumber", args.phoneNumber), EqWhen("otp", args.otp);
    var c, d := EqUnlessUndefined("isUsed", args.isUsed), GtWhen("expiresAt", args.expiresAtGt);
    UnwindowedAppend(a, b);
    UnwindowedAppend(a + b, c);
    UnwindowedAppend(a + b + c, d);
  }

  /** The filter steps of OTP.findFirst, in source order. */
  method OtpFilterSteps(query: seq<Op>, args: OtpFindFirstArgs) returns (r: seq<Op>)
    ensures r == query + OtpFilters(args)
  {
    r := query;
    if Truthy(args.phoneNumber) {
      r := r + [Eq("phoneNumber", args.phoneNumber)];
    }
    if Truthy(args.otp) {
      r := r + [Eq("otp", args.otp)];
    }
    if args.isUsed != Undefined {
      r := r + [Eq("isUsed", args.isUsed)];
    }
    if args.expiresAtGt.Some? {
      r := r + [Gt("expiresAt", args.expiresAtGt.value)];
    }
  }

  /**
   * OTP.findFirst: `eq` on truthy phone number and code, `eq` on `isUsed` unless
   * undefined (so `false` filters), `gt` on the expiry bound, order, `limit(1)`;
   * the first row or `null`.
   */
  method OtpFindFirst(args: OtpFindFirstArgs, store: Query -> RowsReply) returns (q: Query, r: Outcome<Option<Row>>)
    ensures q.table == "OTP"
    ensures q.chain == [Select(Wildcard)] + OtpFilters(args) + OrderBy(args.orderBy) + [Limit(1)]
    ensures var pre := q.chain[..|q.chain| - 1];
            IsRead(pre) && Unwindowed(pre) && q.chain == pre + [Limit(1)]
    ensures forall row :: Admits(q.chain, row) <==> OtpAdmits(row, args)
    ensures r == FirstOrNull(store(q))
  {
    var query := OtpFilterSteps([Select("*")], args);
    query := OrderStep(query, args.orderBy);
    query := query + [Limit(1)];
    q := Query("OTP", query);
    var pre := [Select(Wildcard)] + OtpFilters(args) + OrderBy(args.orderBy);
    assert q.chain == pre + [Limit(1)];
    assert q.chain[..|q.chain| - 1] == pre;
    assert pre[0] == Select(Wildcard);
    OtpFiltersUnwindowed(args);
    UnwindowedAppend([Select(Wildcard)], OtpFilters(args));
    UnwindowedAppend([Select(Wildcard)] + OtpFilters(args), OrderBy(args.orderBy));
    forall row ensures Admits(q.chain, row) <==> OtpAdmits(row, args) {
      AdmitsAppend(pre, [Limit(1)], row);
      AdmitsAppend([Select(Wildcard)] + OtpFilters(args), OrderBy(args.orderBy), row);
      AdmitsAppend([Select(Wildcard)], OtpFilters(args), row);
      AdmitsSingleton(Select(Wildcard), row);
      AdmitsSingleton(Limit(1), row);
      AdmitsOtpFilters(args, row);
      AdmitsOrderBy(args.orderBy, row);
    }
    r := FirstOrNull(store(q));
  }

  /** OTP.update: `eq('id', id)` always, then the single updated row; any error is thrown. */
  method OtpUpdate(id: Value, data: Row, store: Query -> RowReply) returns (q: Query, r: Outcome<Option<Row>>)
    ensures q == Query("OTP", [Update(data), Eq("id", id), Select(Wildcard), Single])
    ensures IsMutation(q.chain) && EndsSingle(q.chain)
    ensures forall row :: Admits(q.chain, row) <==> id != Null && Column(row, "id") == id
    ensures r == WriteOne(store(q))
  {
    q := Query("OTP", [Update(data)] + [Eq("id", id)] + [Select("*")] + [Single]);
    forall row ensures Admits(q.chain, row) <==> id != Null && Column(row, "id") == id {
      AdmitsAppendAll();
      AdmitsSingleton(Update(data), row);
      AdmitsSingleton(Eq("id", id), row);
      AdmitsSingleton(Select(Wildcard), row);
      AdmitsSingleton(Single, row);
    }
    r := WriteOne(store(q));
  }

  /** OTP.updateMany: `eq` on a truthy phone number, on `isUsed` unless undefined; `{ count }` of updated rows. */
  method OtpUpdateMany(args: OtpUpdateManyArgs, store: Query -> RowsReply) returns (q: Query, r: Outcome<nat>)
    ensures q == Query("OTP", [Update(args.data)] + EqWhen("phoneNumber", args.phoneNumber)
                              + EqUnlessUndefined("isUsed", args.isUsed) + [Select(Wildcard)])
    ensures IsMutation(q.chain) && !EndsSingle(q.chain) && Select(Wildcard) in q.chain
    ensures forall row :: Admits(q.chain, row) <==>
              AgreesWhen(row, "phoneNumber", args.phoneNumber) && AgreesUnlessUndefined(row, "isUsed", args.isUsed)
    ensures r == CountOf(store(q))
  {
    var query := [Update(args.data)];
    if Truthy(args.phoneNumber) {
      query := query + [Eq("phoneNumber", args.phoneNumber)];
    }
    if args.isUsed != Undefined {
      query := query + [Eq("isUsed", args.isUsed)];
    }
    q := Query("OTP", query + [Select("*")]);
    var a, b, c := [Update(args.data)], EqWhen("phoneNumber", args.phoneNumber), EqUnlessUndefined("isUsed", args.isUsed);
    assert q.chain == a + b + c + [Select(Wildcard)];
    assert q.chain[|q.chain| - 1] == Select(Wildcard);
    forall row ensures Admits(q.chain, row) <==>
        AgreesWhen(row, "phoneNumber", args.phoneNumber) && AgreesUnlessUndefined(row, "isUsed", args.isUsed) {
      AdmitsAppendAll();
      AdmitsSingleton(a[0], row);
      AdmitsSingleton(Select(Wildcard), row);
      AdmitsEqWhen("phoneNumber", args.phoneNumber, row);
      AdmitsEqUnlessUndefined("isUsed", args.isUsed, row);
    }
    r := CountOf(store(q));
  }

  /** The embed Device.findMany adds when `include.user` is truthy. */
  const AssigneeEmbed: string := "user:User!assignedTo(id, name)"

  /** Device.findMany: the assignee embed when asked for, `eq` on a truthy assignee; `select` is not read. */
  method DeviceFindMany(args: DeviceFindManyArgs, store: Query -> RowsReply) returns (q: Query, r: Outcome<seq<Row>>)
    ensures q == Query("Device", [Select(if Truthy(args.includeUser) then WithEmbed(Wildcard, AssigneeEmbed) else Wildcard)]
                                 + EqWhen("assignedTo", args.assignedTo))
    ensures IsRead(q.chain) && Unwindowed(q.chain)
    ensures forall row :: Admits(q.chain, row) <==> AgreesWhen(row, "assignedTo", args.assignedTo)
    ensures r == ListOrEmpty(store(q))
  {
    var selectFields := Wildcard;
    if Truthy(args.includeUser) {
      selectFields := Wildcard + ", " + AssigneeEmbed;
    }
    var query := [Select(selectFields)];
    if Truthy(args.assignedTo) {
      query := query + [Eq("assignedTo", args.assignedTo)];
    }
    q := Query("Device", query);
    forall row ensures Admits(q.chain, row) <==> AgreesWhen(row, "assignedTo", args.assignedTo) {
      AdmitsAppendAll();
      AdmitsSingleton(Select(selectFields), row);
      AdmitsEqWhen("assignedTo", args.assignedTo, row);
    }
    r := ListOrEmpty(store(q));
  }

  /** Device.createMany: insert the rows, read them back; `{ count }` of inserted rows. */
  method DeviceCreateMany(rows: seq<Row>, store: Query -> RowsReply) returns (q: Query, r: Outcome<nat>)
    ensures q == Query("Device", [Insert(rows), Select(Wildcard)])
    ensures r == CountOf(store(q))
  {
    q := Query("Device", [Insert(rows)] + [Select("*")]);
    r := CountOf(store(q));
  }

  /** Device.update: `eq` on a truthy id and a truthy code, then the single updated row. */
  method DeviceUpdate(args: DeviceUpdateArgs, store: Query -> RowReply) returns (q: Query, r: Outcome<Option<Row>>)
    ensures q == Query("Device", [Update(args.data)] + EqWhen("id", args.where.id) + EqWhen("code", args.where.code)
                                 + [Select(Wildcard), Single])
    ensures IsMutation(q.chain) && EndsSingle(q.chain)
    ensures forall row :: Admits(q.chain, row) <==>
              AgreesWhen(row, "id", args.where.id) && AgreesWhen(row, "code", args.where.code)
    ensures r == WriteOne(store(q))
  {
    var query := [Update(args.data)];
    if Truthy(args.where.id) {
      query := query + [Eq("id", args.where.id)];
    }
    if Truthy(args.where.code) {
      query := query + [Eq("code", args.where.code)];
    }
    q := Query("Device", query + [Select("*")] + [Single]);
    forall row ensures Admits(q.chain, row) <==>
        AgreesWhen(row, "id", args.where.id) && AgreesWhen(row, "code", args.where.code) {
      var a, b, c := [Update(args.data)], EqWhen("id", args.where.id), EqWhen("code", args.where.code);
      assert q.chain == a + b + c + [Select(Wildcard)] + [Single];
      AdmitsAppendAll();
      AdmitsSingleton(a[0], row);
      AdmitsSingleton(Select(Wildcard), row);
      AdmitsSingleton(Single, row);
      AdmitsEqWhen("id", args.where.id, row);
      AdmitsEqWhen("code", args.where.code, row);
    }
    r := WriteOne(store(q));
  }

  /** Device.updateMany: `eq` on a truthy code, `is null` on the assignee only when it is `null`; `{ count }`. */
  method DeviceUpdateMany(args: DeviceUpdateManyArgs, store: Query -> RowsReply) returns (q: Query, r: Outcome<nat>)
    ensures q == Query("Device", [Update(args.data)] + EqWhen("code", args.code)
                                 + IsNullWhen("assignedTo", args.assignedTo) + [Select(Wildcard)])
    ensures IsMutation(q.chain) && !EndsSingle(q.chain) && Select(Wildcard) in q.chain
    ensures forall row :: Admits(q.chain, row) <==>
              AgreesWhen(row, "code", args.code) && NullWhen(row, "assignedTo", args.assignedTo)
    ensures r == CountOf(store(q))
  {
    var query := [Update(args.data)];
    if Truthy(args.code) {
      query := query + [Eq("code", args.code)];
    }
    if args.assignedTo == Null {
      query := query + [IsNull("assignedTo")];
    }
    q := Query("Device", query + [Select("*")]);
    var a, b, c := [Update(args.data)], EqWhen("code", args.code), IsNullWhen("assignedTo", args.assignedTo);
    assert q.chain == a + b + c + [Select(Wildcard)];
    assert q.chain[|q.chain| - 1] == Select(Wildcard);
    forall row ensures Admits(q.chain, row) <==>
        AgreesWhen(row, "code", args.code) && NullWhen(row, "assignedTo", args.assignedTo) {
      AdmitsAppendAll();
      AdmitsSingleton(a[0], row);
      AdmitsSingleton(Select(Wildcard), row);
      AdmitsEqWhen("code", args.code, row);
      AdmitsIsNullWhen("assignedTo", args.assignedTo, row);
    }
    r := CountOf(store(q));
  }

  /** The Tracking filters both `findMany` and `count` apply: device code, and an inclusive time window. */
  predicate TrackingAdmits(row: Row, where: TrackingWhere) {
    AgreesWhen(row, "deviceCode", where.deviceCode) &&
    AtOrAfter(row, "trackedAt", where.trackedAtGte) && AtOrBefore(row, "trackedAt", where.trackedAtLte)
  }

  function TrackingFilters(where: TrackingWhere): seq<Op> {
    EqWhen("deviceCode", where.deviceCode) + GteWhen("trackedAt", where.trackedAtGte) + LteWhen("trackedAt", where.trackedAtLte)
  }

  lemma AdmitsTrackingFilters(where: TrackingWhere, row: Row)
    ensures Admits(TrackingFilters(where), row) <==> TrackingAdmits(row, where)
  {
    AdmitsAppendAll();
    AdmitsEqWhen("deviceCode", where.deviceCode, row);
    AdmitsBounds("trackedAt", where.trackedAtGte, row);
    AdmitsBounds("trackedAt", where.trackedAtLte, row);
  }

  /** The filter steps shared by Tracking.findMany and Tracking.count, in source order. */
  method TrackingFilterSteps(query: seq<Op>, where: TrackingWhere) returns (r: seq<Op>)
    ensures r == query + TrackingFilters(where)
  {
    r := query;
    if Truthy(where.deviceCode) {
      r := r + [Eq("deviceCode", where.deviceCode)];
    }
    if where.trackedAtGte.Some? {
      r := r + [Gte("trackedAt", where.trackedAtGte.value)];
    }
    if where.trackedAtLte.Some? {
      r := r + [Lte("trackedAt", where.trackedAtLte.value)];
    }
  }

  /**
   * Tracking.findMany: filters, order, then `limit(take)` when `take` is truthy and
   * `range(skip, skip + (take || 100) - 1)` when `skip` is truthy.
   */
  method TrackingFindMany(args: TrackingFindManyArgs, store: Query -> RowsReply) returns (q: Query, r: Outcome<seq<Row>>)
    ensures q.table == "Tracking"
    ensures q.chain == [Select(Columns(args.select))] + TrackingFilters(args.where) + OrderBy(args.orderBy)
                       + Paginate(args.take, args.skip)
    ensures var pre := [Select(Columns(args.select))] + TrackingFilters(args.where) + OrderBy(args.orderBy);
            IsRead(pre) && Unwindowed(pre)
    ensures forall row :: Admits(q.chain, row) <==> TrackingAdmits(row, args.where)
    ensures r == ListOrEmpty(store(q))
  {
    var selectFields := SelectStep(args.select);
    var query := [Select(selectFields)];
    query := TrackingFilterSteps(query, args.where);
    query := OrderStep(query, args.orderBy);
    if TruthyInt(args.take) {
      query := query + [Limit(args.take.value)];
    }
    if TruthyInt(args.skip) {
      query := query + [Range(args.skip.value, args.skip.value + IntOr(args.take, 100) - 1)];
    }
    q := Query("Tracking", query);
    var a, b, c, d := [Select(Columns(args.select))], TrackingFilters(args.where), OrderBy(args.orderBy),
                      Paginate(args.take, args.skip);
    assert q.chain == a + b + c + d;
    assert (a + b + c)[0] == Select(Columns(args.select));
    forall row ensures Admits(q.chain, row) <==> TrackingAdmits(row, args.where) {
      AdmitsAppendAll();
      AdmitsSingleton(a[0], row);
      AdmitsTrackingFilters(args.where, row);
      AdmitsOrderBy(args.orderBy, row);
      PaginateAdmitsAll(args.take, args.skip, row);
    }
    r := ListOrEmpty(store(q));
  }

  /** Tracking.count: a `head` count request with the same filters; a missing count is `0`. */
  method TrackingCount(where: TrackingWhere, store: Query -> CountReply) returns (q: Query, r: Outcome<int>)
    ensures q == Query("Tracking", [SelectCount(Wildcard)] + TrackingFilters(where))
    ensures forall row :: Admits(q.chain, row) <==> TrackingAdmits(row, where)
    ensures r == CountOrZero(store(q))
  {
    var query := TrackingFilterSteps([SelectCount("*")], where);
    q := Query("Tracking", query);
    forall row ensures Admits(q.chain, row) <==> TrackingAdmits(row, where) {
      AdmitsAppendAll();
      AdmitsSingleton(SelectCount(Wildcard), row);
      AdmitsTrackingFilters(where, row);
    }
    r := CountOrZero(store(q));
  }

  /** SharedDevice.findFirst: `eq` on a truthy device id and user id, `limit(1)`; the first row or `null`. */
  method SharedDeviceFindFirst(where: SharedDeviceWhere, store: Query -> RowsReply) returns (q: Query, r: Outcome<Option<Row>>)
    ensures q.table == "SharedDevice"
    ensures q.chain == [Select(Wildcard)] + EqWhen("deviceId", where.deviceId) + EqWhen("userId", where.userId) + [Limit(1)]
    ensures var pre := q.chain[..|q.chain| - 1];
            IsRead(pre) && Unwindowed(pre) && q.chain == pre + [Limit(1)]
    ensures forall row :: Admits(q.chain, row) <==>
              AgreesWhen(row, "deviceId", where.deviceId) && AgreesWhen(row, "userId", where.userId)
    ensures r == FirstOrNull(store(q))
  {
    var query := [Select("*")];
    if Truthy(where.deviceId) {
      query := query + [Eq("deviceId", where.deviceId)];
    }
    if Truthy(where.userId) {
      query := query + [Eq("userId", where.userId)];
    }
    q := Query("SharedDevice", query + [Limit(1)]);
    var a, b, c := [Select(Wildcard)], EqWhen("deviceId", where.deviceId), EqWhen("userId", where.userId);
    var pre := a + b + c;
    assert q.chain == pre + [Limit(1)];
    assert q.chain[..|q.chain| - 1] == pre;
    assert pre[0] == Select(Wildcard);
    forall row ensures Admits(q.chain, row) <==>
        AgreesWhen(row, "deviceId", where.deviceId) && AgreesWhen(row, "userId", where.userId) {
      AdmitsAppendAll();
      AdmitsSingleton(a[0], row);
      AdmitsSingleton(Limit(1), row);
      AdmitsEqWhen("deviceId", where.deviceId, row);
      AdmitsEqWhen("userId", where.userId, row);
    }
    r := FirstOrNull(store(q));
  }

  // ---------------------------------------------------------------------
  // Pieces the two copies share in the operations where they differ
  // ---------------------------------------------------------------------

  /** The embeds SharedDevice.findMany adds for `include.device`, its nested `include.user`, and `include.user`. */
  const DeviceEmbed: string := "device:Device(*)"
  const DeviceWithAssigneeEmbed: string := "device:Device(*, " + AssigneeEmbed + ")"
  const SharerEmbed: string := "user:User(id, name, phoneNumber)"

  /** The composite-key filter: `eq` on the key's device id, then on its user id, always both. */
  function KeyFilters(key: Obj): seq<Op> {
    [Eq("deviceId", Get(key, "deviceId")), Eq("userId", Get(key, "userId"))]
  }

  /** A row carries both halves of the composite key; a `null` half matches nothing. */
  predicate KeyMatch(row: Row, key: Obj) {
    Get(key, "deviceId") != Null && Column(row, "deviceId") == Get(key, "deviceId") &&
    Get(key, "userId") != Null && Column(row, "userId") == Get(key, "userId")
  }

  lemma AdmitsKeyFilters(key: Obj, row: Row)
    ensures Admits(KeyFilters(key), row) <==> KeyMatch(row, key)
  {
    assert KeyFilters(key)[0] == Eq("deviceId", Get(key, "deviceId"));
    assert KeyFilters(key)[1] == Eq("userId", Get(key, "userId"));
  }

  /** The user and device filters of SharedDevice.findMany, user id first. */
  function SharedDeviceFilters(where: SharedDeviceWhere): seq<Op> {
    EqWhen("userId", where.userId) + EqWhen("deviceId", where.deviceId)
  }

  predicate SharedDeviceAdmits(row: Row, where: SharedDeviceWhere) {
    AgreesWhen(row, "userId", where.userId) && AgreesWhen(row, "deviceId", where.deviceId)
  }

  lemma AdmitsSharedDeviceFilters(where: SharedDeviceWhere, row: Row)
    ensures Admits(SharedDeviceFilters(where), row) <==> SharedDeviceAdmits(row, where)
  {
    AdmitsAppendAll();
    AdmitsEqWhen("userId", where.userId, row);
    AdmitsEqWhen("deviceId", where.deviceId, row);
  }

  /** The filter steps of SharedDevice.findMany, in source order. */
  method SharedDeviceFilterSteps(query: seq<Op>, where: SharedDeviceWhere) returns (r: seq<Op>)
    ensures r == query + SharedDeviceFilters(where)
  {
    r := query;
    if Truthy(where.userId) {
      r := r + [Eq("userId", where.userId)];
    }
    if Truthy(where.deviceId) {
      r := r + [Eq("deviceId", where.deviceId)];
    }
  }
}
