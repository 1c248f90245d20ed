/**
 * The operations in which the injectable service (`PrismaService`) differs
 * from the exported `prisma` object: OTP.deleteMany, Device.findUnique, and
 * SharedDevice.findUnique, findMany and delete.
 */
module PrismaService {
  import opened Wrappers
  import opened Values
  import opened Builder
  import opened Store
  import opened Normalise
  import opened Descriptors
  import opened Shim

  /** OTP.deleteMany here reads only `where.expiresAt.lt`. */
  function PurgeChain(args: OtpDeleteManyArgs): seq<Op> {
    [Delete] + LtWhen("expiresAt", args.expiresAtLt) + [Select(Wildcard)]
  }

  /** The rows OTP.deleteMany removes here: those expiring before the bound, or every row without one. */
  predicate PurgeAdmits(row: Row, args: OtpDeleteManyArgs) {
    Before(row, "expiresAt", args.expiresAtLt)
  }

  lemma AdmitsPurgeChain(args: OtpDeleteManyArgs, row: Row)
    ensures Admits(PurgeChain(args), row) <==> PurgeAdmits(row, args)
  {
    AdmitsAppendAll();
    AdmitsSingleton(Delete, row);
    AdmitsSingleton(Select(Wildcard), row);
    AdmitsBounds("expiresAt", args.expiresAtLt, row);
  }

  /** OTP.deleteMany: delete the OTPs expiring before the bound (every OTP without one); `{ count }`. */
  method OtpDeleteMany(args: OtpDeleteManyArgs, store: Query -> RowsReply) returns (q: Query, r: Outcome<nat>)
    ensures q == Query("OTP", PurgeChain(args))
    ensures IsMutation(q.chain) && !EndsSingle(q.chain) && Select(Wildcard) in q.chain
    ensures forall row :: Admits(q.chain, row) <==> PurgeAdmits(row, args)
    ensures r == CountOf(store(q))
  {
    var query := [Delete];
    if args.expiresAtLt.Some? {
      query := query + [Lt("expiresAt", args.expiresAtLt.value)];
    }
    q := Query("OTP", query + [Select("*")]);
    assert q.chain[|q.chain| - 1] == Select(Wildcard);
    forall row ensures Admits(q.chain, row) <==> PurgeAdmits(row, args) {
      AdmitsPurgeChain(args, row);
    }
    r := CountOf(store(q));
  }

  /** The embed Device.findUnique adds for `include.user` in this copy. */
  const DeviceUserEmbed: string := "user:User(id, name)"

  /** The projection of Device.findUnique: the selected fields, followed by the user embed when asked for. */
  function DeviceColumns(select: Option<Obj>, includeUser: Value): string {
    if Truthy(includeUser) then WithEmbed(Columns(select), DeviceUserEmbed) else Columns(select)
  }

  /** Device.findUnique here filters on a truthy id, code and SIM number, in that order. */
  function DeviceLookupFilters(where: DeviceWhere): seq<Op> {
    EqWhen("id", where.id) + EqWhen("code", where.code) + EqWhen("iotSimNumber", where.iotSimNumber)
  }

  function DeviceLookupChain(args: DeviceFindUniqueArgs): seq<Op> {
    [Select(DeviceColumns(args.select, args.includeUser))] + DeviceLookupFilters(args.where) + [Single]
  }

  /** Helper for `DeviceFindUnique` and `Copies.LookupCompared`: the lookup is a single-row read that makes no window call. */
  lemma DeviceLookupShape(args: DeviceFindUniqueArgs)
    ensures var chain := DeviceLookupChain(args);
            IsRead(chain) && EndsSingle(chain) && Unwindowed(chain)
  {
    var where := args.where;
    UnwindowedAppend(EqWhen("id", where.id), EqWhen("code", where.code));
    UnwindowedAppend(EqWhen("id", where.id) + EqWhen("code", where.code), EqWhen("iotSimNumber", where.iotSimNumber));
    var head := [Select(DeviceColumns(args.select, args.includeUser))];
    UnwindowedAppend(head, DeviceLookupFilters(where));
    UnwindowedAppend(head + DeviceLookupFilters(where), [Single]);
    assert DeviceLookupChain(args)[0] == head[0];
  }

  predicate DeviceLookupAdmits(row: Row, where: DeviceWhere) {
    AgreesWhen(row, "id", where.id) && AgreesWhen(row, "code", where.code) &&
    AgreesWhen(row, "iotSimNumber", where.iotSimNumber)
  }

  lemma AdmitsDeviceLookupChain(args: DeviceFindUniqueArgs, row: Row)
    ensures Admits(DeviceLookupChain(args), row) <==> DeviceLookupAdmits(row, args.where)
  {
    AdmitsAppendAll();
    AdmitsSingleton(Select(DeviceColumns(args.select, args.includeUser)), row);
    AdmitsSingleton(Single, row);
    AdmitsEqWhen("id", args.where.id, row);
    AdmitsEqWhen("code", args.where.code, row);
    AdmitsEqWhen("iotSimNumber", args.where.iotSimNumber, row);
  }

  /** The filter steps of Device.findUnique, in source order. */
  method DeviceFilterSteps(query: seq<Op>, where: DeviceWhere) returns (r: seq<Op>)
    ensures r == query + DeviceLookupFilters(where)
  {
    r := query;
    if Truthy(where.id) {
      r := r + [Eq("id", where.id)];
    }
    if Truthy(where.code) {
      r := r + [Eq("code", where.code)];
    }
    if Truthy(where.iotSimNumber) {
      r := r + [Eq("iotSimNumber", where.iotSimNumber)];
    }
  }

  /**
   * The projection steps of Device.findUnique: the wildcard case of the embed
   * rule is the general case written out, since `'*' + ', ' + embed` is `'*, ' + embed`.
   */
  method DeviceProjection(select: Option<Obj>, includeUser: Value) returns (selectFields: string)
    ensures selectFields == DeviceColumns(select, includeUser)
  {
    selectFields := SelectStep(select);
    if Truthy(includeUser) {
      selectFields := if selectFields == Wildcard then Wildcard + ", " + DeviceUserEmbed
                      else selectFields + ", " + DeviceUserEmbed;
    }
  }

  /** Device.findUnique: projection, `eq` on each truthy key, `.single()`; not-found is `null`. */
  method DeviceFindUnique(args: DeviceFindUniqueArgs, store: Query -> RowReply) returns (q: Query, r: Outcome<Option<Row>>)
    ensures q == Query("Device", DeviceLookupChain(args))
    ensures ColumnsOf(q.chain) == Some(DeviceColumns(args.select, args.includeUser))
    ensures IsRead(q.chain) && EndsSingle(q.chain) && Unwindowed(q.chain)
    ensures forall row :: Admits(q.chain, row) <==> DeviceLookupAdmits(row, args.where)
    ensures r == ReadOne(store(q))
  {
    var selectFields := DeviceProjection(args.select, args.includeUser);
    var query := DeviceFilterSteps([Select(selectFields)], args.where);
    q := Query("Device", query + [Single]);
    assert q.chain[0] == Select(selectFields);
    DeviceLookupShape(args);
    forall row ensures Admits(q.chain, row) <==> DeviceLookupAdmits(row, args.where) {
      AdmitsDeviceLookupChain(args, row);
    }
    r := ReadOne(store(q));
  }

  /** SharedDevice.findUnique: both halves of the composite key, then `.single()`; not-found is `null`. */
  method SharedDeviceFindUnique(key: Obj, store: Query -> RowReply) returns (q: Query, r: Outcome<Option<Row>>)
    ensures q == Query("SharedDevice", [Select(Wildcard)] + KeyFilters(key) + [Single])
    ensures IsRead(q.chain) && EndsSingle(q.chain) && Unwindowed(q.chain)
    ensures forall row :: Admits(q.chain, row) <==> KeyMatch(row, key)
    ensures r == ReadOne(store(q))
  {
    q := Query("SharedDevice", [Select("*")] + [Eq("deviceId", Get(key, "deviceId"))] + [Eq("userId", Get(key, "userId"))] + [Single]);
    assert q.chain == [Select(Wildcard)] + KeyFilters(key) + [Single];
    forall row ensures Admits(q.chain, row) <==> KeyMatch(row, key) {
      AdmitsAppendAll();
      AdmitsSingleton(Select(Wildcard), row);
      AdmitsSingleton(Single, row);
      AdmitsKeyFilters(key, row);
    }
    r := ReadOne(store(q));
  }

  /**
   * The projection of SharedDevice.findMany: the device embed (with its
   * assignee when nested `include.user` is set), then the sharer embed after it.
   */
  function SharedDeviceColumns(inc: SharedDeviceInclude): string {
    var base := if !Truthy(inc.device) then Wildcard
                else if Truthy(inc.deviceUser) then WithEmbed(Wildcard, DeviceWithAssigneeEmbed)
                else WithEmbed(Wildcard, DeviceEmbed);
    if Truthy(inc.user) then WithEmbed(base, SharerEmbed) else base
  }

  /** Both device embeds name the `device` relation right after the leading `'*, '`. */
  lemma EmbedNamesDevice(embed: string)
    requires embed == DeviceEmbed || embed == DeviceWithAssigneeEmbed
    ensures (Wildcard + ", " + embed)[3..9] == "device"
    ensures Contains(Wildcard + ", " + embed, "device")
  {
    var s := Wildcard + ", " + embed;
    assert s[3..9] == embed[..6];
    if embed == DeviceEmbed {
      assert DeviceEmbed[..6] == "device";
    } else {
      assert DeviceWithAssigneeEmbed[..6] == "device:Device(*, "[..6] == "device";
    }
    ContainsAt(s, "device", 3);
  }

  /**
   * `include.user` keeps what `include.device` chose and appends the sharer
   * embed after it; a requested device embed is always in the projection.
   */
  lemma SharerEmbedAppended(inc: SharedDeviceInclude)
    ensures var without := SharedDeviceColumns(inc.(user := Bool(false)));
            Truthy(inc.user) ==> SharedDeviceColumns(inc) == WithEmbed(without, SharerEmbed)
    ensures Truthy(inc.device) ==> Contains(SharedDeviceColumns(inc), "device")
  {
    if Truthy(inc.device) {
      var embed := if Truthy(inc.deviceUser) then DeviceWithAssigneeEmbed else DeviceEmbed;
      var base := Wildcard + ", " + embed;
      var s := SharedDeviceColumns(inc);
      EmbedNamesDevice(embed);
      assert s[..|base|] == base;
      assert s[3..9] == base[3..9];
      ContainsAt(s, "device", 3);
    }
  }

  /**
   * The projection steps of SharedDevice.findMany: `includes('device')` decides
   * whether the user embed is appended or replaces the projection; it is
   * appended exactly when a device embed is present, and otherwise the
   * projection was `'*'`, so the replacement equals the append.
   */
  method SharedDeviceProjection(inc: SharedDeviceInclude) returns (selectFields: string)
    ensures selectFields == SharedDeviceColumns(inc)
  {
    selectFields := Wildcard;
    if Truthy(inc.device) {
      selectFields := Wildcard + ", " + DeviceEmbed;
      if Truthy(inc.deviceUser) {
        selectFields := Wildcard + ", " + DeviceWithAssigneeEmbed;
      }
    }
    if Truthy(inc.user) {
      if Truthy(inc.device) {
        EmbedNamesDevice(if Truthy(inc.deviceUser) then DeviceWithAssigneeEmbed else DeviceEmbed);
      } else {
        assert !Contains(selectFields, "device");
      }
      selectFields := if Contains(selectFields, "device") then selectFields + ", " + SharerEmbed
                      else Wildcard + ", " + SharerEmbed;
    }
  }

  /** SharedDevice.findMany: projection, `eq` on a truthy user id then device id; a missing list is `[]`. */
  method SharedDeviceFindMany(args: SharedDeviceFindManyArgs, store: Query -> RowsReply) returns (q: Query, r: Outcome<seq<Row>>)
    ensures q == Query("SharedDevice", [Select(SharedDeviceColumns(args.includes))] + SharedDeviceFilters(args.where))
    ensures IsRead(q.chain) && Unwindowed(q.chain)
    ensures forall row :: Admits(q.chain, row) <==> SharedDeviceAdmits(row, args.where)
    ensures r == ListOrEmpty(store(q))
  {
    var selectFields := SharedDeviceProjection(args.includes);
    var query := SharedDeviceFilterSteps([Select(selectFields)], args.where);
    q := Query("SharedDevice", query);
    forall row ensures Admits(q.chain, row) <==> SharedDeviceAdmits(row, args.where) {
      AdmitsAppendAll();
      AdmitsSingleton(Select(selectFields), row);
      AdmitsSharedDeviceFilters(args.where, row);
    }
    r := ListOrEmpty(store(q));
  }

  /** What SharedDevice.delete returns here: a new object built from the key's two halves. */
  function DeleteAck(key: Obj): (r: Obj)
    ensures Keys(r) == ["deviceId", "userId"]
    ensures Get(r, "deviceId") == Get(key, "deviceId") && Get(r, "userId") == Get(key, "userId")
  {
    [("deviceId", Get(key, "deviceId")), ("userId", Get(key, "userId"))]
  }

  /** SharedDevice.delete: both halves of the key; `{ deviceId, userId }` on success. */
  method SharedDeviceDelete(key: Obj, store: Query -> RowsReply) returns (q: Query, r: Outcome<Obj>)
    ensures q == Query("SharedDevice", [Delete] + KeyFilters(key))
    ensures IsMutation(q.chain) && Select(Wildcard) !in q.chain
    ensures forall row :: Admits(q.chain, row) <==> KeyMatch(row, key)
    ensures r == Acknowledge(store(q), DeleteAck(key))
  {
    q := Query("SharedDevice", [Delete] + [Eq("deviceId", Get(key, "deviceId"))] + [Eq("userId", Get(key, "userId"))]);
    assert q.chain == [Delete] + KeyFilters(key);
    forall row ensures Admits(q.chain, row) <==> KeyMatch(row, key) {
      AdmitsAppendAll();
      AdmitsSingleton(Delete, row);
      AdmitsKeyFilters(key, row);
    }
    r := Acknowledge(store(q), [("deviceId", Get(key, "deviceId")), ("userId", Get(key, "userId"))]);
  }
}
