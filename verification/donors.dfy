/** Donor lookup: `showDonorProfile(donorId)` opens a profile only for the
    first donor in `appData.donors` whose id matches (`Array.find`). */
module Donors {
  import opened Optional

  datatype Availability = Available | Busy

  /** A donor; the rating is kept in tenths of a star (4.9 is 49). */
  datatype Donor = Donor(
    id: string,
    name: string,
    bloodType: string,
    distance: string,
    availability: Availability,
    ratingTenths: nat,
    lastDonation: string)

  /** `appData.donors`. */
  const SeedDonors: seq<Donor> := [
    Donor("donor1", "Sarah Johnson", "O+", "2.3 km", Available, 49, "2 weeks ago"),
    Donor("donor2", "Michael Chen", "A+", "3.7 km", Busy, 47, "1 month ago"),
    Donor("donor3", "Emma Rodriguez", "B-", "1.8 km", Available, 48, "3 weeks ago")]

  /** `donors.find(d => d.id === donorId)`: the first donor with that id,
      or `None` (no profile is opened) when there is none. */
  method FindDonor(donors: seq<Donor>, donorId: string) returns (r: Option<Donor>)
    ensures r.None? <==> forall k :: 0 <= k < |donors| ==> donors[k].id != donorId
    ensures r.Some? ==>
      exists k :: 0 <= k < |donors| && donors[k] == r.value && r.value.id == donorId &&
        forall j :: 0 <= j < k ==> donors[j].id != donorId
  {
    var i := 0;
    while i < |donors|
      invariant 0 <= i <= |donors|
      invariant forall j :: 0 <= j < i ==> donors[j].id != donorId
    {
      if donors[i].id == donorId {
        return Some(donors[i]);
      }
      i := i + 1;
    }
    return None;
  }

  /** `showDonorProfile` on the seeded donors: each seeded id finds its own
      donor, and an unknown id opens no profile. */
  method SeedLookups() returns (first: Option<Donor>, second: Option<Donor>, third: Option<Donor>, unknown: Option<Donor>)
    ensures first == Some(SeedDonors[0]) && second == Some(SeedDonors[1]) && third == Some(SeedDonors[2])
    ensures unknown == None
  {
    first := FindDonor(SeedDonors, "donor1");
    second := FindDonor(SeedDonors, "donor2");
    third := FindDonor(SeedDonors, "donor3");
    unknown := FindDonor(SeedDonors, "donor4");
  }
}
