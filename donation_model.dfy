/** `donationSchema` (models/Donation.js): the stored form of a plant
    donation, what constructing one does, and when Mongoose accepts it. */
module DonationModel {
  import opened Common
  import opened JsString
  import opened Schema

  /** The `claimedBy` sub-object; `claimedAt` is a timestamp. */
  datatype ClaimedBy = ClaimedBy(user: Option<Id>, claimedAt: Option<int>, message: Option<string>)

  datatype Donation = Donation(
    plantName: Option<string>,
    description: Option<string>,
    location: Option<string>,
    donorName: Option<string>,
    images: seq<Option<string>>,
    user: Option<Id>,
    status: Option<string>,
    claimedBy: ClaimedBy,
    condition: Option<string>,
    size: Option<string>,
    pickupInstructions: Option<string>)

  const Statuses: seq<string> := ["available", "claimed", "completed"]
  const Conditions: seq<string> := ["excellent", "good", "fair", "needs-care"]
  const Sizes: seq<string> := ["small", "medium", "large", "extra-large"]

  /** Everything `donationSchema` demands of a document. */
  predicate Valid(d: Donation)
  {
    && StringOk(d.plantName, true, 100)
    && StringOk(d.description, true, 1000)
    && StringOk(d.location, true, 200)
    && StringOk(d.donorName, true, 100)
    && d.user.Some?
    && EnumOk(d.status, false, Statuses)
    && StringOk(d.claimedBy.message, false, 500)
    && EnumOk(d.condition, false, Conditions)
    && EnumOk(d.size, false, Sizes)
    && StringOk(d.pickupInstructions, false, 500)
  }

  /** The validation errors Mongoose reports when saving `d`, in schema
      order; saving succeeds exactly when there are none. */
  function Validate(d: Donation): (errs: seq<SchemaError>)
    ensures errs == [] <==> Valid(d)
  {
    CheckString("plantName", d.plantName, true, 100)
    + CheckString("description", d.description, true, 1000)
    + CheckString("location", d.location, true, 200)
    + CheckString("donorName", d.donorName, true, 100)
    + CheckRef("user", d.user)
    + CheckEnum("status", d.status, false, Statuses)
    + CheckString("claimedBy.message", d.claimedBy.message, false, 500)
    + CheckEnum("condition", d.condition, false, Conditions)
    + CheckEnum("size", d.size, false, Sizes)
    + CheckString("pickupInstructions", d.pickupInstructions, false, 500)
  }

  /** `new Donation(fields)`: the `trim` setter on `plantName` and the
      defaults of `status`, `condition` and `size`; nothing else changes. */
  function Construct(d: Donation): (r: Donation)
    ensures r.plantName.Some? <==> d.plantName.Some?
    ensures r.plantName.Some? ==> r.plantName.value == Trim(d.plantName.value)
    ensures r.status == (if d.status.None? then Some("available") else d.status)
    ensures r.condition == (if d.condition.None? then Some("good") else d.condition)
    ensures r.size == (if d.size.None? then Some("medium") else d.size)
    ensures r.(plantName := d.plantName, status := d.status, condition := d.condition, size := d.size) == d
  {
    d.(plantName := if d.plantName.Some? then Some(Trim(d.plantName.value)) else None,
       status := if d.status.None? then Some("available") else d.status,
       condition := if d.condition.None? then Some("good") else d.condition,
       size := if d.size.None? then Some("medium") else d.size)
  }

  /** The three defaults are members of their enums, so leaving those fields
      out never makes a donation invalid. The validators need no help here;
      the lemma records, next to `Construct`, that the defaults never trip
      them. */
  lemma DefaultsAreValid(d: Donation)
    ensures var r := Construct(d);
      && EnumOk(r.status, false, Statuses) == EnumOk(d.status, false, Statuses)
      && EnumOk(r.condition, false, Conditions) == EnumOk(d.condition, false, Conditions)
      && EnumOk(r.size, false, Sizes) == EnumOk(d.size, false, Sizes)
  {
  }

  /** Constructing a document twice is the same as constructing it once. */
  lemma ConstructIdempotent(d: Donation)
    ensures Construct(Construct(d)) == Construct(d)
  {
    if d.plantName.Some? { TrimIdempotent(d.plantName.value); }
  }
}
