/** An abstract model of the orchestration API consumed by the volume-claim code: the claims of
    the cluster as a map from (namespace, name) to the claim's labels, the three operations the
    code calls (create, get-if-exists, delete), a log of every call issued, and an error oracle
    that decides, per call, whether the API fails. */
module KubeApi {
  import opened Common

  type Labels = map<string, string>

  datatype ClaimKey = ClaimKey(namespace: string, name: string)

  /** A decoded volume-claim object, as far as the model looks into it. */
  datatype Claim = Claim(name: string, labels: Labels)

  /** One request sent to the API. */
  datatype Call =
    | CreateCall(namespace: string, claim: Claim)
    | GetCall(key: ClaimKey)
    | DeleteCall(key: ClaimKey)

  /** The error oracle: when one of these yields a reason, that call fails with ApiFailure. Each
      is given the log of the calls issued before this one, so the same request may fail on one
      call and succeed on the next (a transient error). */
  datatype Faults = Faults(
    create: (seq<Call>, string, Claim) -> Option<string>,
    lookup: (seq<Call>, ClaimKey) -> Option<string>,
    delete: (seq<Call>, ClaimKey) -> Option<string>)

  /** The error an injected fault produces, if any. */
  function FaultError(fault: Option<string>): (err: Option<Error>)
  {
    match fault
    case Some(reason) => Some(ApiFailure(reason))
    case None => None
  }

  datatype ApiState = ApiState(faults: Faults, claims: map<ClaimKey, Labels>, calls: seq<Call>)

  /** The new API state and the error of a call that writes. */
  datatype Written = Written(state: ApiState, err: Option<Error>)

  /** The new API state, the object found (if any) and the error of a lookup. */
  datatype Found = Found(state: ApiState, labels: Option<Labels>, err: Option<Error>)

  /** Create a claim in a namespace: fails with AlreadyExists when the name is taken. */
  function CreateClaim(st: ApiState, namespace: string, claim: Claim): (r: Written)
    ensures r.state.faults == st.faults
    ensures r.state.calls == st.calls + [CreateCall(namespace, claim)]
    ensures r.err.None? <==> st.faults.create(st.calls, namespace, claim).None? && ClaimKey(namespace, claim.name) !in st.claims
    ensures r.state.claims == if r.err.None? then st.claims[ClaimKey(namespace, claim.name) := claim.labels] else st.claims
  {
    var logged := st.(calls := st.calls + [CreateCall(namespace, claim)]);
    var key := ClaimKey(namespace, claim.name);
    match st.faults.create(st.calls, namespace, claim)
    case Some(reason) => Written(logged, Some(ApiFailure(reason)))
    case None =>
      if key in st.claims then Written(logged, Some(AlreadyExists))
      else Written(logged.(claims := st.claims[key := claim.labels]), None)
  }

  /** Look a claim up: a missing claim is no object and no error. */
  function GetClaimIfExists(st: ApiState, key: ClaimKey): (r: Found)
    ensures r.state == st.(calls := st.calls + [GetCall(key)])
    ensures r.labels.Some? <==> st.faults.lookup(st.calls, key).None? && key in st.claims
    ensures r.labels.Some? ==> r.labels.value == st.claims[key] && r.err.None?
  {
    var logged := st.(calls := st.calls + [GetCall(key)]);
    match st.faults.lookup(st.calls, key)
    case Some(reason) => Found(logged, None, Some(ApiFailure(reason)))
    case None => Found(logged, if key in st.claims then Some(st.claims[key]) else None, None)
  }

  /** Delete a claim: a missing claim is reported as NotFound. */
  function DeleteClaim(st: ApiState, key: ClaimKey): (r: Written)
    ensures r.state.faults == st.faults
    ensures r.state.calls == st.calls + [DeleteCall(key)]
    ensures r.err.None? <==> st.faults.delete(st.calls, key).None? && key in st.claims
    ensures r.state.claims == if r.err.None? then st.claims - {key} else st.claims
  {
    var logged := st.(calls := st.calls + [DeleteCall(key)]);
    match st.faults.delete(st.calls, key)
    case Some(reason) => Written(logged, Some(ApiFailure(reason)))
    case None =>
      if key in st.claims then Written(logged.(claims := st.claims - {key}), None)
      else Written(logged, Some(NotFound))
  }

  /** The API client handed to the volume-claim code; its methods change the claims in place. */
  class ClaimStore {
    var claims: map<ClaimKey, Labels>
    var calls: seq<Call>
    const faults: Faults

    function State(): (st: ApiState)
      reads this
    {
      ApiState(faults, claims, calls)
    }

    constructor (faults: Faults, claims: map<ClaimKey, Labels>)
      ensures State() == ApiState(faults, claims, [])
    {
      this.faults := faults;
      this.claims := claims;
      this.calls := [];
    }

    method Create(namespace: string, claim: Claim) returns (err: Option<Error>)
      modifies this
      ensures Written(State(), err) == CreateClaim(old(State()), namespace, claim)
    {
      var fault := faults.create(calls, namespace, claim);
      calls := calls + [CreateCall(namespace, claim)];
      var key := ClaimKey(namespace, claim.name);
      match fault {
        case Some(reason) =>
          err := Some(ApiFailure(reason));
        case None =>
          if key in claims {
            err := Some(AlreadyExists);
          } else {
            claims := claims[key := claim.labels];
            err := None;
          }
      }
    }

    method GetIfExists(namespace: string, name: string) returns (labels: Option<Labels>, err: Option<Error>)
      modifies this
      ensures Found(State(), labels, err) == GetClaimIfExists(old(State()), ClaimKey(namespace, name))
    {
      var key := ClaimKey(namespace, name);
      var fault := faults.lookup(calls, key);
      calls := calls + [GetCall(key)];
      match fault {
        case Some(reason) =>
          labels, err := None, Some(ApiFailure(reason));
        case None =>
          labels := if key in claims then Some(claims[key]) else None;
          err := None;
      }
    }

    method Delete(namespace: string, name: string) returns (err: Option<Error>)
      modifies this
      ensures Written(State(), err) == DeleteClaim(old(State()), ClaimKey(namespace, name))
    {
      var key := ClaimKey(namespace, name);
      var fault := faults.delete(calls, key);
      calls := calls + [DeleteCall(key)];
      match fault {
        case Some(reason) =>
          err := Some(ApiFailure(reason));
        case None =>
          if key in claims {
            claims := claims - {key};
            err := None;
          } else {
            err := Some(NotFound);
          }
      }
    }
  }
}
