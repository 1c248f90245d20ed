/**
 * Call sequences of the shim's clients, run against the store model: the
 * one-time-password login flow, and a SharedDevice lookup with half a key.
 */
module Scenarios {
  import opened Wrappers
  import opened Values
  import opened Builder
  import opened Store
  import opened Normalise
  import opened Descriptors
  import opened Shim
  import PrismaService

  /** A fresh, unused OTP row for a phone number. */
  function OtpRow(id: int, phone: string, code: string, expiresAt: int): Row {
    map["id" := Num(id), "phoneNumber" := Str(phone), "otp" := Str(code),
        "isUsed" := Bool(false), "expiresAt" := Time(expiresAt)]
  }

  /** The row after `update({ isUsed: true })`. */
  function UsedRow(id: int, phone: string, code: string, expiresAt: int): Row {
    OtpRow(id, phone, code, expiresAt)["isUsed" := Bool(true)]
  }

  /** The lookup of the login handler: this phone and code, unused, not yet expired, newest first. */
  function PendingOtp(phone: string, code: string, now: int): OtpFindFirstArgs {
    OtpFindFirstArgs(Str(phone), Str(code), Bool(false), Some(now), Some([("createdAt", Str("desc"))]))
  }

  /** The pending lookup admits the fresh row and rejects the used one. */
  lemma PendingRows(id: int, phone: string, code: string, now: int, expiresAt: int)
    requires phone != "" && code != "" && now < expiresAt
    ensures OtpAdmits(OtpRow(id, phone, code, expiresAt), PendingOtp(phone, code, now))
    ensures !OtpAdmits(UsedRow(id, phone, code, expiresAt), PendingOtp(phone, code, now))
    ensures OtpRow(id, phone, code, expiresAt) + map["isUsed" := Bool(true)] == UsedRow(id, phone, code, expiresAt)
  {
    var row := OtpRow(id, phone, code, expiresAt);
    assert Column(row, "phoneNumber") == Str(phone) && Column(row, "otp") == Str(code);
    assert Column(row, "isUsed") == Bool(false) && Column(row, "expiresAt") == Time(expiresAt);
    assert Column(UsedRow(id, phone, code, expiresAt), "isUsed") == Bool(true);
  }

  lemma MatchingOne(row: Row, chain: seq<Op>)
    ensures Matching([row], chain) == if Admits(chain, row) then [row] else []
  {
    assert [row][1..] == [];
  }

  lemma OrderedOne(row: Row, chain: seq<Op>)
    ensures Ordered([row], chain) == [row]
  {
    OrderedCount([row], chain);
    assert Ordered([row], chain)[0] in multiset([row]);
  }

  /** A first-row read over a collection of one row: that row when the chain admits it, else `null`. */
  lemma FirstOfOne(db: Db, q: Query, row: Row)
    requires |q.chain| > 0
    requires var pre := q.chain[..|q.chain| - 1]; IsRead(pre) && Unwindowed(pre) && q.chain == pre + [Limit(1)]
    requires Table(db, q.table) == [row]
    ensures FirstOrNull(RunRows(db, q)) == Returned(if Admits(q.chain, row) then Some(row) else None)
  {
    var pre := q.chain[..|q.chain| - 1];
    AdmitsAppend(pre, [Limit(1)], row);
    AdmitsSingleton(Limit(1), row);
    assert q == Query(q.table, pre + [Limit(1)]);
    FirstOutcome(db, pre, q.table);
    MatchingOne(row, pre);
    OrderedOne(row, pre);
  }

  /** Sending a code: the OTP is inserted, and the pending lookup finds it. */
  method CreateAndFind(db: Db, id: int, phone: string, code: string, now: int, expiresAt: int)
    returns (created: Outcome<Option<Row>>, found: Outcome<Option<Row>>, db1: Db)
    requires Table(db, "OTP") == [] && phone != "" && code != "" && now < expiresAt
    ensures created == Returned(Some(OtpRow(id, phone, code, expiresAt)))
    ensures found == Returned(Some(OtpRow(id, phone, code, expiresAt)))
    ensures Table(db1, "OTP") == [OtpRow(id, phone, code, expiresAt)]
  {
    var row := OtpRow(id, phone, code, expiresAt);
    PendingRows(id, phone, code, now, expiresAt);
    var q: Query;
    q, created := Create("OTP", row, (q: Query) => RunSingle(db, q));
    CreateOutcome(db, "OTP", row);
    db1 := Apply(db, q);
    q, found := OtpFindFirst(PendingOtp(phone, code, now), (q: Query) => RunRows(db1, q));
    FirstOfOne(db1, q, row);
  }

  /** Verifying the code: the OTP is marked used, and the same lookup no longer finds it. */
  method UseAndFindAgain(db1: Db, id: int, phone: string, code: string, now: int, expiresAt: int)
    returns (used: Outcome<Option<Row>>, foundAgain: Outcome<Option<Row>>)
    requires Table(db1, "OTP") == [OtpRow(id, phone, code, expiresAt)] && phone != "" && code != "" && now < expiresAt
    ensures used == Returned(Some(UsedRow(id, phone, code, expiresAt)))
    ensures foundAgain == Returned(None)
  {
    var row, usedRow := OtpRow(id, phone, code, expiresAt), UsedRow(id, phone, code, expiresAt);
    PendingRows(id, phone, code, now, expiresAt);
    var patch := map["isUsed" := Bool(true)];
    var q: Query;
    q, used := OtpUpdate(Num(id), patch, (q: Query) => RunSingle(db1, q));
    UpdateOneOutcome(db1, q);
    assert Column(row, "id") == Num(id);
    MatchingOne(row, q.chain);
    var db2 := Apply(db1, q);
    assert Table(db2, "OTP") == [usedRow];
    q, foundAgain := OtpFindFirst(PendingOtp(phone, code, now), (q: Query) => RunRows(db2, q));
    FirstOfOne(db2, q, usedRow);
  }

  /**
   * Login with a one-time password: the created OTP is found by the pending
   * lookup, marking it used succeeds, and the same lookup then finds nothing,
   * so a code is accepted once.
   */
  method OtpUsedOnce(db: Db, id: int, phone: string, code: string, now: int, expiresAt: int)
    returns (created: Outcome<Option<Row>>, found: Outcome<Option<Row>>,
             used: Outcome<Option<Row>>, foundAgain: Outcome<Option<Row>>)
    requires Table(db, "OTP") == [] && phone != "" && code != "" && now < expiresAt
    ensures created == Returned(Some(OtpRow(id, phone, code, expiresAt)))
    ensures found == Returned(Some(OtpRow(id, phone, code, expiresAt)))
    ensures used == Returned(Some(UsedRow(id, phone, code, expiresAt)))
    ensures foundAgain == Returned(None)
  {
    var db1;
    created, found, db1 := CreateAndFind(db, id, phone, code, now, expiresAt);
    used, foundAgain := UseAndFindAgain(db1, id, phone, code, now, expiresAt);
  }

  /** Half a composite key admits no stored row: the missing half is compared with `undefined`. */
  lemma HalfKeyMatchesNothing(db: Db, q: Query, key: Obj)
    requires forall x :: x in Table(db, q.table) ==> StoredRow(x)
    requires Get(key, "userId") == Undefined
    requires forall row :: Admits(q.chain, row) <==> KeyMatch(row, key)
    ensures Matching(Table(db, q.table), q.chain) == []
  {
    forall x | x in Table(db, q.table) ensures !Admits(q.chain, x) {
      assert !KeyMatch(x, key) by {
        if "userId" in x { assert x["userId"] != Undefined; }
      }
    }
    MatchingNone(Table(db, q.table), q.chain);
  }

  /**
   * SharedDevice.findUnique with only the device half of the key: in the
   * store model no stored share satisfies `eq('userId', undefined)`, so the
   * lookup returns `null`. (PostgreSQL rejects the text `undefined` for an
   * integer column instead.)
   */
  method HalfKeyLookup(db: Db, deviceId: int) returns (r: Outcome<Option<Row>>)
    requires forall x :: x in Table(db, "SharedDevice") ==> StoredRow(x)
    ensures r == Returned(None)
  {
    var key: Obj := [("deviceId", Num(deviceId))];
    var q: Query;
    q, r := PrismaService.SharedDeviceFindUnique(key, (q: Query) => RunSingle(db, q));
    HalfKeyMatchesNothing(db, q, key);
    LookupOutcome(db, q);
  }
}
