/** The two browser-side use cases of the device grant: creating a device code
    (section 3.2 of RFC 8628) and the user's decision (section 3.3). */
module DeviceFlow {
  import opened DeviceCodes
  import opened Exchanges
  import opened Model
  import opened Outcomes
  import opened Scopes

  /** The shape the client-id value object demands. */
  predicate IsClientId(id: string) { 0 < |id| <= 255 }

  datatype DeviceRequest = DeviceRequest(clientId: Option<string>, scope: Option<string>)

  /** The row a device-authorization request creates, or why it is refused. */
  function NewDeviceCode(clients: Clients, request: DeviceRequest, now: int, ttl: int, interval: int,
                         deviceCode: string, userCode: string): Result<DeviceCode>
  {
    if Missing(request.clientId) then Err(InvalidRequest)
    else if !IsClientId(request.clientId.value) then Err(BadValue)
    else if request.clientId.value !in clients then Err(InvalidClient)
    else
      var client := clients[request.clientId.value];
      if !client.Supports(DeviceCodeGrant) then Err(UnauthorizedClient)
      else
        match Parse(request.scope)
        case Err(e) => Err(e)
        case Ok(requested) =>
          if requested != {} && !(requested <= client.allowedScopes) then Err(InvalidScope)
          else
            var scope := if requested != {} then requested else client.allowedScopes;
            Ok(DeviceCode(deviceCode, userCode, client.id, scope, now, now + ttl, interval, None, None, false, None))
  }

  /** A device code is created exactly for a registered client with the device grant and a scope
      request within its registration; the row is waiting, unpolled, and for the requested
      scope, or for all the client is allowed when it requests none. Otherwise the first thing
      wrong is named. */
  lemma NewDeviceCodeIff(clients: Clients, request: DeviceRequest, now: int, ttl: int, interval: int,
                         deviceCode: string, userCode: string)
    requires IsRegistry(clients)
    ensures var r := NewDeviceCode(clients, request, now, ttl, interval, deviceCode, userCode);
            var id := if request.clientId.Some? then request.clientId.value else "";
            if id == "" then r == Err(InvalidRequest)
            else if |id| > 255 then r == Err(BadValue)
            else if id !in clients then r == Err(InvalidClient)
            else if DeviceCodeGrant !in clients[id].allowedGrants then r == Err(UnauthorizedClient)
            else if Parse(request.scope).Err? then r == Err(BadValue)
            else
              var requested, allowed := Parse(request.scope).value, clients[id].allowedScopes;
              if requested <= allowed then
                r == Ok(DeviceCode(deviceCode, userCode, id, if requested == {} then allowed else requested,
                                   now, now + ttl, interval, None, None, false, None))
              else r == Err(InvalidScope)
  {}

  datatype Decision = Decision(userCode: string, userSub: string, approved: bool)

  function DecisionFault(devices: Store, decision: Decision, now: int): Option<Error> {
    match FindByUserCode(devices, decision.userCode)
    case None => Some(InvalidRequest)
    case Some(code) =>
      if code.IsExpired(now) then Some(ExpiredToken)
      else if !code.IsPending() then Some(InvalidGrant(AlreadyDecided))
      else None
  }

  function Decided(devices: Store, decision: Decision, now: int): Store {
    match FindByUserCode(devices, decision.userCode)
    case None => devices
    case Some(code) =>
      if DecisionFault(devices, decision, now).Some? then devices
      else Saved(devices, if decision.approved then code.Approve(decision.userSub) else code.Deny())
  }

  /** The answer to a decision in terms of the rows themselves: refused as unknown exactly when no
      row has the user code, and otherwise by that row's expiry and state, in this order. An
      accepted decision names the approver on the row or marks it denied, and changes nothing
      else of it. */
  lemma DecisionAnswers(devices: Store, decision: Decision, now: int)
    requires InStep(devices)
    ensures DecisionFault(devices, decision, now) == Some(InvalidRequest)
            <==> forall d | d in devices.byDeviceCode :: devices.byDeviceCode[d].userCode != decision.userCode
    ensures forall d | d in devices.byDeviceCode && devices.byDeviceCode[d].userCode == decision.userCode ::
              var row, fault := devices.byDeviceCode[d], DecisionFault(devices, decision, now);
              var undecided := row.userSub.None? && !row.denied;
              && (fault == Some(ExpiredToken) <==> now >= row.expiresAt)
              && (fault == Some(InvalidGrant(AlreadyDecided)) <==> now < row.expiresAt && !undecided)
              && (fault.None? <==> now < row.expiresAt && undecided)
              && Decided(devices, decision, now).byDeviceCode[d]
                 == if fault.Some? then row
                    else if decision.approved then row.(userSub := Some(decision.userSub), denied := false)
                    else row.(userSub := None, denied := true)
    ensures forall d | d in devices.byDeviceCode && devices.byDeviceCode[d].userCode != decision.userCode ::
              Decided(devices, decision, now).byDeviceCode[d] == devices.byDeviceCode[d]
    ensures Decided(devices, decision, now).byDeviceCode.Keys == devices.byDeviceCode.Keys
  {
    IndexAgreesWithScan(devices, decision.userCode, None);
  }

  class Service {
    const devices: Repository
    const clients: Clients
    const ttl: int
    const interval: int

    constructor (devices: Repository, clients: Clients, ttl: int, interval: int)
      ensures this.devices == devices && this.clients == clients && this.ttl == ttl && this.interval == interval
    {
      this.devices, this.clients, this.ttl, this.interval := devices, clients, ttl, interval;
    }

    method RequestAuthorization(request: DeviceRequest, now: int, deviceCode: string, userCode: string)
      returns (r: Result<DeviceCode>)
      modifies devices
      ensures r == NewDeviceCode(clients, request, now, ttl, interval, deviceCode, userCode)
      ensures devices.Contents() == if r.Ok? then Saved(old(devices.Contents()), r.value) else old(devices.Contents())
    {
      if Missing(request.clientId) {
        return Err(InvalidRequest);
      }
      if !IsClientId(request.clientId.value) {
        return Err(BadValue);
      }
      if request.clientId.value !in clients {
        return Err(InvalidClient);
      }
      var client := clients[request.clientId.value];
      if !client.Supports(DeviceCodeGrant) {
        return Err(UnauthorizedClient);
      }
      var parsed := Parse(request.scope);
      if parsed.Err? {
        return Err(parsed.error);
      }
      if parsed.value != {} && !(parsed.value <= client.allowedScopes) {
        return Err(InvalidScope);
      }
      var scope := if parsed.value != {} then parsed.value else client.allowedScopes;
      var code := DeviceCode(deviceCode, userCode, client.id, scope, now, now + ttl, interval, None, None, false, None);
      devices.Save(code);
      return Ok(code);
    }

    method Decide(decision: Decision, now: int) returns (fault: Option<Error>)
      modifies devices
      ensures fault == DecisionFault(old(devices.Contents()), decision, now)
      ensures devices.Contents() == Decided(old(devices.Contents()), decision, now)
    {
      var found := devices.FindByUser(decision.userCode);
      if found.None? {
        return Some(InvalidRequest);
      }
      var code := found.value;
      if code.IsExpired(now) {
        return Some(ExpiredToken);
      }
      if !code.IsPending() {
        return Some(InvalidGrant(AlreadyDecided));
      }
      var updated := if decision.approved then code.Approve(decision.userSub) else code.Deny();
      devices.Save(updated);
      return None;
    }
  }
}
