/**
 * The query descriptors the shim's callers pass, one datatype per argument
 * shape, holding exactly the properties the shim reads. A property the caller
 * leaves out is `Undefined` (or `None`); an omitted `args` object is the
 * descriptor with every property left out, which `args?.` makes equivalent.
 */
module Descriptors {
  import opened Wrappers
  import opened Values

  /** `where: { id?, phoneNumber? }` of User lookups and updates. */
  datatype UserWhere = UserWhere(id: Value, phoneNumber: Value)

  datatype UserFindUniqueArgs = UserFindUniqueArgs(where: UserWhere, select: Option<Obj>)

  /** `where.role.in`, `select` and `orderBy` of User.findMany. */
  datatype UserFindManyArgs = UserFindManyArgs(roleIn: Option<seq<Value>>, select: Option<Obj>, orderBy: Option<Obj>)

  datatype UserUpdateArgs = UserUpdateArgs(where: UserWhere, data: Row)

  /** OTP.findFirst: `where.phoneNumber`, `where.otp`, `where.isUsed`, `where.expiresAt.gt`, `orderBy`. */
  datatype OtpFindFirstArgs = OtpFindFirstArgs(
    phoneNumber: Value, otp: Value, isUsed: Value, expiresAtGt: Option<int>, orderBy: Option<Obj>)

  datatype OtpUpdateManyArgs = OtpUpdateManyArgs(phoneNumber: Value, isUsed: Value, data: Row)

  /** OTP.deleteMany: `where.phoneNumber`, `where.isUsed`, `where.expiresAt.lt` (one copy reads only the last). */
  datatype OtpDeleteManyArgs = OtpDeleteManyArgs(phoneNumber: Value, isUsed: Value, expiresAtLt: Option<int>)

  /** `where: { id?, code?, iotSimNumber? }` of Device lookups and updates (one copy ignores `iotSimNumber`). */
  datatype DeviceWhere = DeviceWhere(id: Value, code: Value, iotSimNumber: Value)

  datatype DeviceFindUniqueArgs = DeviceFindUniqueArgs(where: DeviceWhere, select: Option<Obj>, includeUser: Value)

  datatype DeviceFindManyArgs = DeviceFindManyArgs(assignedTo: Value, includeUser: Value)

  datatype DeviceUpdateArgs = DeviceUpdateArgs(where: DeviceWhere, data: Row)

  /** Device.updateMany: `where.code`, `where.assignedTo` (only `null` is acted on), `data`. */
  datatype DeviceUpdateManyArgs = DeviceUpdateManyArgs(code: Value, assignedTo: Value, data: Row)

  /** `where.deviceCode`, `where.trackedAt.gte`, `where.trackedAt.lte` of Tracking reads. */
  datatype TrackingWhere = TrackingWhere(deviceCode: Value, trackedAtGte: Option<int>, trackedAtLte: Option<int>)

  datatype TrackingFindManyArgs = TrackingFindManyArgs(
    where: TrackingWhere, orderBy: Option<Obj>, take: Option<int>, skip: Option<int>, select: Option<Obj>)

  datatype SharedDeviceWhere = SharedDeviceWhere(deviceId: Value, userId: Value)

  /** `include.device`, `include.device.include.user` and `include.user` of SharedDevice.findMany. */
  datatype SharedDeviceInclude = SharedDeviceInclude(device: Value, deviceUser: Value, user: Value)

  datatype SharedDeviceFindManyArgs = SharedDeviceFindManyArgs(where: SharedDeviceWhere, includes: SharedDeviceInclude)
}
