/** The in-memory device-code repository: rows by device code, and a side index from
    user code to device code. */
module DeviceCodes {
  import opened Model
  import opened Outcomes

  datatype Store = Store(byDeviceCode: map<string, DeviceCode>, byUserCode: map<string, string>)

  const EMPTY := Store(map[], map[])

  // ---------------------------------------------------------------- specification

  function Saved(store: Store, code: DeviceCode): Store {
    Store(store.byDeviceCode[code.deviceCode := code], store.byUserCode[code.userCode := code.deviceCode])
  }

  function FindByDeviceCode(store: Store, deviceCode: string): Option<DeviceCode> {
    if deviceCode in store.byDeviceCode then Some(store.byDeviceCode[deviceCode]) else None
  }

  /** Two lookups, through the side index. */
  function FindByUserCode(store: Store, userCode: string): Option<DeviceCode> {
    if userCode !in store.byUserCode then None
    else FindByDeviceCode(store, store.byUserCode[userCode])
  }

  predicate IsRedeemable(code: DeviceCode, now: int) {
    code.IsApproved() && !code.IsRedeemed() && !code.IsExpired(now)
  }

  function Redemption(store: Store, deviceCode: string, now: int): Option<DeviceCode> {
    if deviceCode in store.byDeviceCode && IsRedeemable(store.byDeviceCode[deviceCode], now)
    then Some(store.byDeviceCode[deviceCode].Redeem(now)) else None
  }

  function Redeemed(store: Store, deviceCode: string, now: int): Store {
    var r := Redemption(store, deviceCode, now);
    if r.Some? then store.(byDeviceCode := store.byDeviceCode[deviceCode := r.value]) else store
  }

  /** Of any two redemptions of one code the later one finds nothing to redeem. */
  lemma RedeemedAtMostOnce(store: Store, deviceCode: string, now: int, later: int)
    ensures Redemption(store, deviceCode, now).Some? ==>
              && Redemption(Redeemed(store, deviceCode, now), deviceCode, later).None?
              && Redeemed(Redeemed(store, deviceCode, now), deviceCode, later) == Redeemed(store, deviceCode, now)
  {}

  // ---------------------------------------------------------------- the side index

  /** The two maps are in step: the index holds exactly the user codes of the rows. */
  ghost predicate InStep(store: Store) {
    && (forall d | d in store.byDeviceCode ::
          var row := store.byDeviceCode[d];
          row.deviceCode == d && row.userCode in store.byUserCode && store.byUserCode[row.userCode] == d)
    && (forall u | u in store.byUserCode ::
          && store.byUserCode[u] in store.byDeviceCode
          && store.byDeviceCode[store.byUserCode[u]].userCode == u)
  }

  /** The lookup as a scan of the rows, as the database runs it: some row with that user
      code, or none when there is none. */
  ghost predicate IsScanResult(store: Store, userCode: string, found: Option<DeviceCode>) {
    match found
    case Some(row) =>
      row.deviceCode in store.byDeviceCode && store.byDeviceCode[row.deviceCode] == row && row.userCode == userCode
    case None => forall d | d in store.byDeviceCode :: store.byDeviceCode[d].userCode != userCode
  }

  /** While the maps are in step the index answers every user code as the scan does, and
      the scan has only one possible answer. */
  lemma IndexAgreesWithScan(store: Store, userCode: string, found: Option<DeviceCode>)
    requires InStep(store)
    ensures IsScanResult(store, userCode, found) <==> found == FindByUserCode(store, userCode)
  {}

  /** Saving keeps the maps in step exactly when the row's user code belongs to no other
      row and a row already stored keeps its user code. */
  lemma SaveKeepsInStep(store: Store, code: DeviceCode)
    requires InStep(store)
    ensures InStep(Saved(store, code)) <==>
              && (code.userCode in store.byUserCode ==> store.byUserCode[code.userCode] == code.deviceCode)
              && (code.deviceCode in store.byDeviceCode ==>
                    store.byDeviceCode[code.deviceCode].userCode == code.userCode)
  {
    var after := Saved(store, code);
    if code.userCode in store.byUserCode && store.byUserCode[code.userCode] != code.deviceCode {
      var other := store.byUserCode[code.userCode];
      assert after.byDeviceCode[other].userCode == code.userCode;
      assert after.byUserCode[code.userCode] == code.deviceCode;
    }
    if code.deviceCode in store.byDeviceCode && store.byDeviceCode[code.deviceCode].userCode != code.userCode {
      var stale := store.byDeviceCode[code.deviceCode].userCode;
      assert stale in after.byUserCode && after.byUserCode[stale] == code.deviceCode;
    }
  }

  lemma RedeemKeepsInStep(store: Store, deviceCode: string, now: int)
    requires InStep(store)
    ensures InStep(Redeemed(store, deviceCode, now))
  {
    var after := Redeemed(store, deviceCode, now);
    forall d | d in after.byDeviceCode
      ensures after.byDeviceCode[d].deviceCode == d && after.byDeviceCode[d].userCode == store.byDeviceCode[d].userCode
    {}
  }

  // ---------------------------------------------------------------- the repository

  class Repository {
    var byDeviceCode: map<string, DeviceCode>
    var byUserCode: map<string, string>

    function Contents(): Store
      reads this
    {
      Store(byDeviceCode, byUserCode)
    }

    constructor ()
      ensures Contents() == EMPTY
    {
      byDeviceCode, byUserCode := map[], map[];
    }

    method Save(code: DeviceCode)
      modifies this
      ensures Contents() == Saved(old(Contents()), code)
    {
      byDeviceCode := byDeviceCode[code.deviceCode := code];
      byUserCode := byUserCode[code.userCode := code.deviceCode];
    }

    method Redeem(deviceCode: string, now: int) returns (r: Option<DeviceCode>)
      requires InStep(Contents())
      modifies this
      ensures r == Redemption(old(Contents()), deviceCode, now)
      ensures Contents() == Redeemed(old(Contents()), deviceCode, now)
    {
      if deviceCode !in byDeviceCode {
        return None;
      }
      var code := byDeviceCode[deviceCode];
      if !code.IsApproved() || code.IsRedeemed() || code.IsExpired(now) {
        return None;
      }
      var redeemed := code.Redeem(now);
      byDeviceCode := byDeviceCode[redeemed.deviceCode := redeemed];
      return Some(redeemed);
    }

    method FindByDevice(deviceCode: string) returns (code: Option<DeviceCode>)
      ensures code == FindByDeviceCode(Contents(), deviceCode)
    {
      code := if deviceCode in byDeviceCode then Some(byDeviceCode[deviceCode]) else None;
    }

    method FindByUser(userCode: string) returns (code: Option<DeviceCode>)
      ensures code == FindByUserCode(Contents(), userCode)
      ensures InStep(Contents()) ==> IsScanResult(Contents(), userCode, code)
    {
      if userCode !in byUserCode {
        return None;
      }
      var deviceCode := byUserCode[userCode];
      code := if deviceCode in byDeviceCode then Some(byDeviceCode[deviceCode]) else None;
    }
  }
}
