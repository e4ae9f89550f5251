/** The donation routes (routes/donations.js): create, claim, and the
    donor's update of a claim's status. The routes work on a document with a
    `donor` and a list of `claims`, which is the shape modelled here (the
    schema in models/Donation.js declares neither; see DonationModel). */
module DonationRoutes {
  import opened Common
  import Schema
  import DonationModel

  /** One entry of `claims`: its sub-document id, the claimant, the message
      sent with the claim and the status the donor gave it (none until then). */
  datatype Claim = Claim(id: Id, user: Id, message: Option<string>, status: Option<string>)

  datatype Donation = Donation(
    plantName: Option<string>,
    description: Option<string>,
    location: Option<string>,
    donor: Id,
    status: string,
    claims: seq<Claim>)

  /** What the handlers answer. */
  datatype Reply =
    | Created(id: Id, donation: Donation)   // 201, the new document
    | Ok(donation: Donation)                // 200, the saved document
    | NotFound(msg: string)                 // 404
    | AlreadyClaimed                        // 400 {msg: 'Already claimed this donation'}
    | NotAuthorized                         // 401 {msg: 'Not authorized'}
    | ServerError                           // 500 {error: err.message}

  function Status(r: Reply): int
  {
    match r
    case Created(_, _) => 201
    case Ok(_) => 200
    case NotFound(_) => 404
    case AlreadyClaimed => 400
    case NotAuthorized => 401
    case ServerError => 500
  }

  /** `claims.find(claim => claim.user == user)`: the position of the first
      claim by `user`, if any. */
  function FindClaimBy(claims: seq<Claim>, user: Id): (r: Option<nat>)
    ensures r.None? <==> forall i :: 0 <= i < |claims| ==> claims[i].user != user
    ensures r.Some? ==> r.value < |claims| && claims[r.value].user == user
    ensures r.Some? ==> forall i :: 0 <= i < r.value ==> claims[i].user != user
  {
    if claims == [] then None
    else if claims[0].user == user then Some(0)
    else
      var rest := FindClaimBy(claims[1..], user);
      if rest.None? then None else Some(rest.value + 1)
  }

  /** `claims.id(claimId)`: the position of the first claim with that id. */
  function FindClaimId(claims: seq<Claim>, claimId: Id): (r: Option<nat>)
    ensures r.None? <==> forall i :: 0 <= i < |claims| ==> claims[i].id != claimId
    ensures r.Some? ==> r.value < |claims| && claims[r.value].id == claimId
    ensures r.Some? ==> forall i :: 0 <= i < r.value ==> claims[i].id != claimId
  {
    if claims == [] then None
    else if claims[0].id == claimId then Some(0)
    else
      var rest := FindClaimId(claims[1..], claimId);
      if rest.None? then None else Some(rest.value + 1)
  }

  /** No user has claimed a donation twice, and claim ids are distinct. */
  predicate WellFormed(d: Donation)
  {
    && (forall i, j :: 0 <= i < j < |d.claims| ==> d.claims[i].user != d.claims[j].user)
    && (forall i, j :: 0 <= i < j < |d.claims| ==> d.claims[i].id != d.claims[j].id)
  }

  /** The new document of `POST /`: the three fields from the body, the
      requester as donor, the schema's default status and no claims. */
  function NewDonation(plantName: Option<string>, description: Option<string>, location: Option<string>,
                       requester: Id): (d: Donation)
    ensures d.donor == requester && d.status == "available" && d.claims == []
    ensures d.plantName == plantName && d.description == description && d.location == location
    ensures WellFormed(d)
  {
    Donation(plantName, description, location, requester, "available", [])
  }

  /** The create route's fields read through the schema of
      models/Donation.js, which has no `donor` path: only `plantName`,
      `description` and `location` remain. */
  function AsSchemaDocument(plantName: Option<string>, description: Option<string>, location: Option<string>)
      : (d: DonationModel.Donation)
    ensures d.plantName == plantName && d.description == description && d.location == location
    ensures d.donorName.None? && d.user.None?
  {
    DonationModel.Donation(plantName, description, location, None, [], None, None,
                           DonationModel.ClaimedBy(None, None, None), None, None, None)
  }

  /** The schema's validation would reject every donation the create route
      builds: it requires `donorName` and `user`, which the route never sets. */
  lemma SchemaRejectsRouteDocument(plantName: Option<string>, description: Option<string>, location: Option<string>)
    ensures var errs := DonationModel.Validate(DonationModel.Construct(AsSchemaDocument(plantName, description, location)));
            Schema.Required("donorName") in errs && Schema.Required("user") in errs
  {
    var d := DonationModel.Construct(AsSchemaDocument(plantName, description, location));
    var errs := DonationModel.Validate(d);
    var pre := Schema.CheckString("plantName", d.plantName, true, 100)
               + Schema.CheckString("description", d.description, true, 1000)
               + Schema.CheckString("location", d.location, true, 200);
    assert errs[|pre|] == Schema.Required("donorName");
    assert errs[|pre| + 1] == Schema.Required("user");
  }

  /** `claims.push({user, message})`: one claim at the end, the others and
      every other field unchanged. */
  function AddClaim(d: Donation, c: Claim): (r: Donation)
    ensures r.claims == d.claims + [c]
    ensures r.(claims := d.claims) == d
  {
    d.(claims := d.claims + [c])
  }

  /** A claim by a user who has not claimed yet, under an id no claim has,
      keeps the document well formed. */
  lemma AddClaimKeepsWellFormed(d: Donation, c: Claim)
    requires WellFormed(d)
    requires FindClaimBy(d.claims, c.user).None? && FindClaimId(d.claims, c.id).None?
    ensures WellFormed(AddClaim(d, c))
  {
    var r := AddClaim(d, c);
    forall i, j | 0 <= i < j < |r.claims|
      ensures r.claims[i].user != r.claims[j].user && r.claims[i].id != r.claims[j].id
    {
      if j == |d.claims| {
        assert r.claims[i] == d.claims[i];
      }
    }
  }

  /** Once a user's claim is appended, the duplicate check finds it, so a
      second claim by the same user is rejected. */
  lemma ClaimedOnce(d: Donation, c: Claim)
    ensures FindClaimBy(AddClaim(d, c).claims, c.user).Some?
  {
    assert AddClaim(d, c).claims[|d.claims|] == c;
  }

  /** `claim.status = status`, and the donation becomes `claimed` when the
      new status is `approved`. */
  function SetClaimStatus(d: Donation, i: nat, status: Option<string>): (r: Donation)
    requires i < |d.claims|
    ensures |r.claims| == |d.claims|
    ensures r.claims[i] == d.claims[i].(status := status)
    ensures forall j :: 0 <= j < |d.claims| && j != i ==> r.claims[j] == d.claims[j]
    ensures r.status == (if status == Some("approved") then "claimed" else d.status)
    ensures r.(claims := d.claims, status := d.status) == d
  {
    d.(claims := d.claims[i := d.claims[i].(status := status)],
       status := if status == Some("approved") then "claimed" else d.status)
  }

  /** A status update leaves claimants and claim ids as they were. */
  lemma SetClaimStatusKeepsWellFormed(d: Donation, i: nat, status: Option<string>)
    requires i < |d.claims| && WellFormed(d)
    ensures WellFormed(SetClaimStatus(d, i, status))
  {
    var r := SetClaimStatus(d, i, status);
    forall j | 0 <= j < |r.claims|
      ensures r.claims[j].user == d.claims[j].user && r.claims[j].id == d.claims[j].id
    {
    }
  }

  /** The donation collection. Ids of donations and of claims come from one
      counter, so a new id is never already in use. */
  class DonationStore {
    var donations: map<Id, Donation>
    var nextId: Id

    ghost predicate Valid()
      reads this
    {
      && (forall k :: k in donations ==> k < nextId && WellFormed(donations[k]))
      && (forall k, i :: k in donations && 0 <= i < |donations[k].claims| ==> donations[k].claims[i].id < nextId)
    }

    constructor (initial: map<Id, Donation>, next: Id)
      requires forall k :: k in initial ==> k < next && WellFormed(initial[k])
      requires forall k, i :: k in initial && 0 <= i < |initial[k].claims| ==> initial[k].claims[i].id < next
      ensures Valid() && donations == initial && nextId == next
    {
      donations, nextId := initial, next;
    }

    /** `POST /`: a new donation whose donor is the requester; when the save
        fails, 500 and nothing is stored. */
    method Create(plantName: Option<string>, description: Option<string>, location: Option<string>,
                  requester: Id, saveFails: bool) returns (r: Reply)
      requires Valid()
      modifies this
      ensures Valid()
      ensures saveFails ==> r == ServerError && donations == old(donations)
      ensures !saveFails ==>
                && r.Created?
                && r.id !in old(donations)
                && r.donation == NewDonation(plantName, description, location, requester)
                && r.donation.donor == requester
                && donations == old(donations)[r.id := r.donation]
    {
      var id := nextId;
      nextId := nextId + 1;
      var d := NewDonation(plantName, description, location, requester);
      if saveFails {
        return ServerError;
      }
      donations := donations[id := d];
      return Created(id, d);
    }

    /** `POST /:id/claim`; a rejected `findById` or `save` answers 500. */
    method ClaimDonation(id: Id, requester: Id, message: Option<string>, lookupFails: bool, saveFails: bool)
        returns (r: Reply)
      requires Valid()
      modifies this
      ensures Valid()
      ensures lookupFails ==> r == ServerError
      ensures !lookupFails && id !in old(donations) ==> r == NotFound("Donation not found")
      ensures !lookupFails && id in old(donations) && FindClaimBy(old(donations)[id].claims, requester).Some? ==>
                r == AlreadyClaimed
      ensures id in old(donations) && FindClaimBy(old(donations)[id].claims, requester).None? && saveFails ==>
                r == ServerError
      ensures !r.Ok? ==> donations == old(donations)
      ensures r.Ok? <==>
                !lookupFails && id in old(donations) && FindClaimBy(old(donations)[id].claims, requester).None?
                && !saveFails
      ensures r.Ok? ==>
                && |r.donation.claims| == |old(donations)[id].claims| + 1
                && var c := r.donation.claims[|r.donation.claims| - 1];
                && c.user == requester && c.message == message && c.status.None?
                && r.donation == AddClaim(old(donations)[id], c)
                && donations == old(donations)[id := r.donation]
    {
      if lookupFails {
        return ServerError;
      }
      if id !in donations {
        return NotFound("Donation not found");
      }
      var d := donations[id];
      if FindClaimBy(d.claims, requester).Some? {
        return AlreadyClaimed;
      }
      var c := Claim(nextId, requester, message, None);
      nextId := nextId + 1;
      var updated := AddClaim(d, c);
      if saveFails {
        return ServerError;
      }
      assert FindClaimId(d.claims, c.id).None?;
      AddClaimKeepsWellFormed(d, c);
      donations := donations[id := updated];
      return Ok(updated);
    }

    /** `PUT /:id/claims/:claimId`: only the donor may change a claim's
        status. */
    method UpdateClaimStatus(id: Id, claimId: Id, requester: Id, status: Option<string>,
                             lookupFails: bool, saveFails: bool)
        returns (r: Reply)
      requires Valid()
      modifies this
      ensures Valid()
      ensures lookupFails ==> r == ServerError
      ensures !lookupFails && id !in old(donations) ==> r == NotFound("Donation not found")
      ensures !lookupFails && id in old(donations) && old(donations)[id].donor != requester ==> r == NotAuthorized
      ensures (!lookupFails && id in old(donations) && old(donations)[id].donor == requester
               && FindClaimId(old(donations)[id].claims, claimId).None?) ==> r == NotFound("Claim not found")
      ensures (!lookupFails && id in old(donations) && old(donations)[id].donor == requester
               && FindClaimId(old(donations)[id].claims, claimId).Some? && saveFails) ==> r == ServerError
      ensures !r.Ok? ==> donations == old(donations)
      ensures r.Ok? <==>
                && !lookupFails && id in old(donations) && old(donations)[id].donor == requester
                && FindClaimId(old(donations)[id].claims, claimId).Some? && !saveFails
      ensures r.Ok? ==>
                && r.donation == SetClaimStatus(old(donations)[id], FindClaimId(old(donations)[id].claims, claimId).value, status)
                && donations == old(donations)[id := r.donation]
    {
      if lookupFails {
        return ServerError;
      }
      if id !in donations {
        return NotFound("Donation not found");
      }
      var d := donations[id];
      if d.donor != requester {
        return NotAuthorized;
      }
      var i := FindClaimId(d.claims, claimId);
      if i.None? {
        return NotFound("Claim not found");
      }
      var updated := SetClaimStatus(d, i.value, status);
      if saveFails {
        return ServerError;
      }
      SetClaimStatusKeepsWellFormed(d, i.value, status);
      donations := donations[id := updated];
      return Ok(updated);
    }
  }
}
