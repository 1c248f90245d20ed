/**
 * The operations in which the exported `prisma` object differs from the
 * injectable service: OTP.deleteMany, Device.findUnique, and SharedDevice
 * findMany and delete. This copy has no SharedDevice.findUnique.
 */
module PrismaClient {
  import opened Wrappers
  import opened Values
  import opened Builder
  import opened Store
  import opened Normalise
  import opened Descriptors
  import opened Shim

  /** OTP.deleteMany here reads the phone number, `isUsed` and the expiry bound. */
  function PurgeChain(args: OtpDeleteManyArgs): seq<Op> {
    [Delete] + EqWhen("phoneNumber", args.phoneNumber) + EqUnlessUndefined("isUsed", args.isUsed)
    + LtWhen("expiresAt", args.expiresAtLt) + [Select(Wildcard)]
  }

  /** The rows OTP.deleteMany removes here: a conjunction of the three filters. */
  predicate PurgeAdmits(row: Row, args: OtpDeleteManyArgs) {
    AgreesWhen(row, "phoneNumber", args.phoneNumber) && AgreesUnlessUndefined(row, "isUsed", args.isUsed) &&
    Before(row, "expiresAt", args.expiresAtLt)
  }

  lemma AdmitsPurgeChain(args: OtpDeleteManyArgs, row: Row)
    ensures Admits(PurgeChain(args), row) <==> PurgeAdmits(row, args)
  {
    AdmitsAppendAll();
    AdmitsSingleton(Delete, row);
    AdmitsSingleton(Select(Wildcard), row);
    AdmitsEqWhen("phoneNumber", args.phoneNumber, row);
    AdmitsEqUnlessUndefined("isUsed", args.isUsed, row);
    AdmitsBounds("expiresAt", args.expiresAtLt, row);
  }

  /** OTP.deleteMany: `eq` on a truthy phone number, on `isUsed` unless undefined, `lt` on the bound; `{ count }`. */
  method OtpDeleteMany(args: OtpDeleteManyArgs, store: Query -> RowsReply) returns (q: Query, r: Outcome<nat>)
    ensures q == Query("OTP", PurgeChain(args))
    ensures IsMutation(q.chain) && !EndsSingle(q.chain) && Select(Wildcard) in q.chain
    ensures forall row :: Admits(q.chain, row) <==> PurgeAdmits(row, args)
    ensures r == CountOf(store(q))
  {
    var query := [Delete];
    if Truthy(args.phoneNumber) {
      query := query + [Eq("phoneNumber", args.phoneNumber)];
    }
    if args.isUsed != Undefined {
      query := query + [Eq("isUsed", args.isUsed)];
    }
    if args.expiresAtLt.Some? {
      query := query + [Lt("expiresAt", args.expiresAtLt.value)];
    }
    q := Query("OTP", query + [Select("*")]);
    assert q.chain == PurgeChain(args);
    assert q.chain[|q.chain| - 1] == Select(Wildcard);
    forall row ensures Admits(q.chain, row) <==> PurgeAdmits(row, args) {
      AdmitsPurgeChain(args, row);
    }
    r := CountOf(store(q));
  }

  /** The embed Device.findUnique adds for `include.user` in this copy: the assignee, with phone number. */
  const DeviceUserEmbed: string := "user:User!assignedTo(id, name, phoneNumber)"

  function DeviceColumns(select: Option<Obj>, includeUser: Value): string {
    if Truthy(includeUser) then WithEmbed(Columns(select), DeviceUserEmbed) else Columns(select)
  }

  /** Device.findUnique here filters on a truthy id and code only. */
  function DeviceLookupFilters(where: DeviceWhere): seq<Op> {
    EqWhen("id", where.id) + EqWhen("code", where.code)
  }

  function DeviceLookupChain(args: DeviceFindUniqueArgs): seq<Op> {
    [Select(DeviceColumns(args.select, args.includeUser))] + DeviceLookupFilters(args.where) + [Single]
  }

  /** Helper for `DeviceFindUnique` and `Copies.LookupCompared`: the lookup is a single-row read that makes no window call. */
  lemma DeviceLookupShape(args: DeviceFindUniqueArgs)
    ensures var chain := DeviceLookupChain(args);
            IsRead(chain) && EndsSingle(chain) && Unwindowed(chain)
  {
    var where := args.where;
    UnwindowedAppend(EqWhen("id", where.id), EqWhen("code", where.code));
    var head := [Select(DeviceColumns(args.select, args.includeUser))];
    UnwindowedAppend(head, DeviceLookupFilters(where));
    UnwindowedAppend(head + DeviceLookupFilters(where), [Single]);
    assert DeviceLookupChain(args)[0] == head[0];
  }

  predicate DeviceLookupAdmits(row: Row, where: DeviceWhere) {
    AgreesWhen(row, "id", where.id) && AgreesWhen(row, "code", where.code)
  }

  lemma AdmitsDeviceLookupChain(args: DeviceFindUniqueArgs, row: Row)
    ensures Admits(DeviceLookupChain(args), row) <==> DeviceLookupAdmits(row, args.where)
  {
    AdmitsAppendAll();
    AdmitsSingleton(Select(DeviceColumns(args.select, args.includeUser)), row);
    AdmitsSingleton(Single, row);
    AdmitsEqWhen("id", args.where.id, row);
    AdmitsEqWhen("code", args.where.code, row);
  }

  /** The filter steps of Device.findUnique, in source order. */
  method DeviceFilterSteps(query: seq<Op>, where: DeviceWhere) returns (r: seq<Op>)
    ensures r == query + DeviceLookupFilters(where)
  {
    r := query;
    if Truthy(where.id) {
      r := r + [Eq("id", where.id)];
    }
    if Truthy(where.code) {
      r := r + [Eq("code", where.code)];
    }
  }

  /** The projection steps of Device.findUnique; on the wildcard the embed follows `'*, '` as well. */
  method DeviceProjection(select: Option<Obj>, includeUser: Value) returns (selectFields: string)
    ensures selectFields == DeviceColumns(select, includeUser)
  {
    selectFields := SelectStep(select);
    if Truthy(includeUser) {
      selectFields := if selectFields == Wildcard then Wildcard + ", " + DeviceUserEmbed
                      else selectFields + ", " + DeviceUserEmbed;
    }
  }

  /** Device.findUnique: projection, `eq` on a truthy id and code, `.single()`; not-found is `null`. */
  method DeviceFindUnique(args: DeviceFindUniqueArgs, store: Query -> RowReply) returns (q: Query, r: Outcome<Option<Row>>)
    ensures q == Query("Device", DeviceLookupChain(args))
    ensures ColumnsOf(q.chain) == Some(DeviceColumns(args.select, args.includeUser))
    ensures IsRead(q.chain) && EndsSingle(q.chain) && Unwindowed(q.chain)
    ensures forall row :: Admits(q.chain, row) <==> DeviceLookupAdmits(row, args.where)
    ensures r == ReadOne(store(q))
  {
    var selectFields := DeviceProjection(args.select, args.includeUser);
    var query := DeviceFilterSteps([Select(selectFields)], args.where);
    q := Query("Device", query + [Single]);
    assert q.chain[0] == Select(selectFields);
    DeviceLookupShape(args);
    forall row ensures Admits(q.chain, row) <==> DeviceLookupAdmits(row, args.where) {
      AdmitsDeviceLookupChain(args, row);
    }
    r := ReadOne(store(q));
  }

  /** The projection of SharedDevice.findMany here: the plain device embed, then the sharer embed after it. */
  function SharedDeviceColumns(inc: SharedDeviceInclude): string {
    var base := if Truthy(inc.device) then WithEmbed(Wildcard, DeviceEmbed) else Wildcard;
    if Truthy(inc.user) then WithEmbed(base, SharerEmbed) else base
  }

  /** The projection steps of SharedDevice.findMany: `+=` appends the sharer embed to whatever is there. */
  method SharedDeviceProjection(inc: SharedDeviceInclude) returns (selectFields: string)
    ensures selectFields == SharedDeviceColumns(inc)
  {
    selectFields := Wildcard;
    if Truthy(inc.device) {
      selectFields := Wildcard + ", " + DeviceEmbed;
    }
    if Truthy(inc.user) {
      selectFields := selectFields + ", " + SharerEmbed;
    }
  }

  /** SharedDevice.findMany: projection, `eq` on a truthy user id then device id; a missing list is `[]`. */
  method SharedDeviceFindMany(args: SharedDeviceFindManyArgs, store: Query -> RowsReply) returns (q: Query, r: Outcome<seq<Row>>)
    ensures q == Query("SharedDevice", [Select(SharedDeviceColumns(args.includes))] + SharedDeviceFilters(args.where))
    ensures IsRead(q.chain) && Unwindowed(q.chain)
    ensures forall row :: Admits(q.chain, row) <==> SharedDeviceAdmits(row, args.where)
    ensures r == ListOrEmpty(store(q))
  {
    var selectFields := SharedDeviceProjection(args.includes);
    var query := SharedDeviceFilterSteps([Select(selectFields)], args.where);
    q := Query("SharedDevice", query);
    forall row ensures Admits(q.chain, row) <==> SharedDeviceAdmits(row, args.where) {
      AdmitsAppendAll();
      AdmitsSingleton(Select(selectFields), row);
      AdmitsSharedDeviceFilters(args.where, row);
    }
    r := ListOrEmpty(store(q));
  }

  /** SharedDevice.delete: both halves of the key; on success the key object itself is returned. */
  method SharedDeviceDelete(key: Obj, store: Query -> RowsReply) returns (q: Query, r: Outcome<Obj>)
    ensures q == Query("SharedDevice", [Delete] + KeyFilters(key))
    ensures IsMutation(q.chain) && Select(Wildcard) !in q.chain
    ensures forall row :: Admits(q.chain, row) <==> KeyMatch(row, key)
    ensures r == Acknowledge(store(q), key)
  {
    q := Query("SharedDevice", [Delete] + [Eq("deviceId", Get(key, "deviceId"))] + [Eq("userId", Get(key, "userId"))]);
    assert q.chain == [Delete] + KeyFilters(key);
    forall row ensures Admits(q.chain, row) <==> KeyMatch(row, key) {
      AdmitsAppendAll();
      AdmitsSingleton(Delete, row);
      AdmitsKeyFilters(key, row);
    }
    r := Acknowledge(store(q), key);
  }
}
