/**
 * How the two copies of the shim differ, stated exactly: the projections of
 * Device.findUnique and SharedDevice.findMany, the filters of OTP.deleteMany
 * and Device.findUnique, and the value SharedDevice.delete returns.
 */
module Copies {
  import opened Wrappers
  import opened Values
  import opened Builder
  import opened Store
  import opened Normalise
  import opened Descriptors
  import opened Shim
  import Service = PrismaService
  import Client = PrismaClient

  /** Device.findUnique: both copies keep the selected fields in front; their user embeds always differ. */
  lemma DeviceColumnsCompared(select: Option<Obj>, includeUser: Value)
    ensures var s, c := Service.DeviceColumns(select, includeUser), Client.DeviceColumns(select, includeUser);
            s[..|Columns(select)|] == Columns(select) && c[..|Columns(select)|] == Columns(select) &&
            (s == c <==> !Truthy(includeUser))
  {
    if Truthy(includeUser) {
      assert |Service.DeviceUserEmbed| != |Client.DeviceUserEmbed|;
    }
  }

  /**
   * SharedDevice.findMany: the two projections coincide except when both
   * `include.device` and `include.device.include.user` are set, which only the
   * service honours.
   */
  lemma SharedDeviceColumnsCompared(inc: SharedDeviceInclude)
    ensures Service.SharedDeviceColumns(inc) == Client.SharedDeviceColumns(inc) <==>
            !(Truthy(inc.device) && Truthy(inc.deviceUser))
  {
    if Truthy(inc.device) && Truthy(inc.deviceUser) {
      assert |DeviceWithAssigneeEmbed| != |DeviceEmbed|;
      assert |Service.SharedDeviceColumns(inc)| != |Client.SharedDeviceColumns(inc)|;
    }
  }

  /**
   * OTP.deleteMany: the client's filters are a conjunction that includes the
   * service's, so it deletes (and counts) no more rows, keeps every row the
   * service keeps, and behaves identically when no phone number is given and
   * `isUsed` is undefined.
   */
  lemma PurgeCompared(db: Db, args: OtpDeleteManyArgs)
    ensures var s, c := Query("OTP", Service.PurgeChain(args)), Query("OTP", Client.PurgeChain(args));
            var ns, nc := CountOf(RunRows(db, s)), CountOf(RunRows(db, c));
            ns.Returned? && nc.Returned? && nc.value <= ns.value &&
            (forall x :: x in Table(Apply(db, s), "OTP") ==> x in Table(Apply(db, c), "OTP")) &&
            (!Truthy(args.phoneNumber) && args.isUsed == Undefined ==> nc == ns && Apply(db, c) == Apply(db, s))
  {
    var sc, cc := Service.PurgeChain(args), Client.PurgeChain(args);
    var s, c := Query("OTP", sc), Query("OTP", cc);
    forall x ensures Admits(cc, x) ==> Admits(sc, x) {
      Service.AdmitsPurgeChain(args, x);
      Client.AdmitsPurgeChain(args, x);
    }
    assert sc[|sc| - 1] == Select(Wildcard) && cc[|cc| - 1] == Select(Wildcard);
    CountAffected(db, s);
    CountAffected(db, c);
    MatchingMonotone(Table(db, "OTP"), cc, sc);
    DeleteOutcome(db, s);
    DeleteOutcome(db, c);
    if !Truthy(args.phoneNumber) && args.isUsed == Undefined {
      assert cc == sc;
    }
  }

  /** Helper for `LookupCompared`: the service lookup admits fewer rows, and the same ones without a SIM number. */
  lemma LookupAdmitsCompared(args: DeviceFindUniqueArgs, x: Row)
    ensures Admits(Service.DeviceLookupChain(args), x) ==> Admits(Client.DeviceLookupChain(args), x)
    ensures !Truthy(args.where.iotSimNumber) ==>
              (Admits(Service.DeviceLookupChain(args), x) <==> Admits(Client.DeviceLookupChain(args), x))
  {
    Service.AdmitsDeviceLookupChain(args, x);
    Client.AdmitsDeviceLookupChain(args, x);
  }

  /**
   * Device.findUnique: the service also filters on the SIM number, so it
   * matches no more rows; without a SIM number both return the same row or `null`.
   */
  lemma LookupCompared(db: Db, args: DeviceFindUniqueArgs)
    ensures var sc, cc := Service.DeviceLookupChain(args), Client.DeviceLookupChain(args);
            var rows := Table(db, "Device");
            multiset(Matching(rows, sc)) <= multiset(Matching(rows, cc)) &&
            (!Truthy(args.where.iotSimNumber) ==>
               ReadOne(RunSingle(db, Query("Device", sc))) == ReadOne(RunSingle(db, Query("Device", cc))))
  {
    var sc, cc := Service.DeviceLookupChain(args), Client.DeviceLookupChain(args);
    var rows := Table(db, "Device");
    forall x ensures Admits(sc, x) ==> Admits(cc, x) {
      LookupAdmitsCompared(args, x);
    }
    MatchingMonotone(rows, sc, cc);
    if !Truthy(args.where.iotSimNumber) {
      forall x ensures Admits(sc, x) <==> Admits(cc, x) {
        LookupAdmitsCompared(args, x);
      }
      MatchingSame(rows, sc, cc);
      Service.DeviceLookupShape(args);
      Client.DeviceLookupShape(args);
      LookupOutcome(db, Query("Device", sc));
      LookupOutcome(db, Query("Device", cc));
    }
  }

  /**
   * SharedDevice.delete: the two copies send the same chain and return the
   * same halves of the key; the client returns the key object itself, so it
   * differs from the service's fresh object exactly when the key is not the
   * two properties `deviceId`, `userId` in that order.
   */
  lemma DeleteAckCompared(key: Obj)
    ensures Get(Service.DeleteAck(key), "deviceId") == Get(key, "deviceId")
    ensures Get(Service.DeleteAck(key), "userId") == Get(key, "userId")
    ensures Service.DeleteAck(key) == key <==>
            |key| == 2 && key[0].0 == "deviceId" && key[1].0 == "userId"
  {
    var r := Service.DeleteAck(key);
    assert |r| == 2 && r[0].0 == "deviceId" && r[1].0 == "userId";
    if |key| == 2 && key[0].0 == "deviceId" && key[1].0 == "userId" {
      assert Get(key, "deviceId") == key[0].1;
      assert key[1..][0] == key[1];
      assert Get(key, "userId") == key[1].1;
      assert key == [key[0], key[1]];
    }
  }
}
