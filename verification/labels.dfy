/**
  Marker ids and office labels, built by template literals in both globe
  variants: `port-${index}`, `office-${index}`, `Regional Office: ${place}`
  and `Managing ${count} ports in ${place}`.
 */
module Labels {
  import opened Text
  import Navigation

  const PortPrefix := "port-"
  const OfficePrefix := "office-"

  function PortId(index: nat): string {
    PortPrefix + NatToString(index)
  }

  function OfficeId(index: nat): string {
    OfficePrefix + NatToString(index)
  }

  function OfficeName(place: string): string {
    "Regional Office: " + place
  }

  function OfficeDescription(count: nat, place: string): string {
    "Managing " + NatToString(count) + " ports in " + place
  }

  /** Port ids are distinct, office ids are distinct, and no port id is an office id. */
  lemma IdsAreDistinct(i: nat, j: nat)
    ensures PortId(i) == PortId(j) ==> i == j
    ensures OfficeId(i) == OfficeId(j) ==> i == j
    ensures PortId(i) != OfficeId(j)
  {
    PrefixedInjective(PortPrefix, i, j);
    PrefixedInjective(OfficePrefix, i, j);
    assert PortId(i)[0] != OfficeId(j)[0];
  }

  /** The id of position `k` in a list of `offices` offices followed by ports. */
  function NumberedId(offices: nat, k: nat): string {
    if k < offices then OfficeId(k) else PortId(k - offices)
  }

  /** Offices numbered from 0 followed by ports numbered from 0 never share an id. */
  lemma NumberedIdsDiffer(offices: nat, i: nat, j: nat)
    requires i != j
    ensures NumberedId(offices, i) != NumberedId(offices, j)
  {
    if i < offices && j < offices {
      IdsAreDistinct(i, j);
    } else if i < offices {
      IdsAreDistinct(j - offices, i);
    } else if j < offices {
      IdsAreDistinct(i - offices, j);
    } else {
      IdsAreDistinct(i - offices, j - offices);
    }
  }

  /** A list whose k-th id is `NumberedId(offices, k)` has no repeated id. */
  lemma NumberedIdsAreDistinct(ids: seq<string>, offices: nat)
    requires forall k :: 0 <= k < |ids| ==> ids[k] == NumberedId(offices, k)
    ensures Navigation.Distinct(ids)
  {
    forall i, j | 0 <= i < j < |ids|
      ensures ids[i] != ids[j]
    {
      NumberedIdsDiffer(offices, i, j);
    }
  }

  /** Office ids carry the `office-` prefix that the view filter looks for; port ids do not. */
  lemma OfficePrefixSeparatesKinds(i: nat, j: nat)
    ensures StartsWith(OfficeId(i), OfficePrefix)
    ensures !StartsWith(PortId(j), OfficePrefix)
  {
    assert PortId(j)[0] != OfficePrefix[0];
  }

  /** The count in an office description reads back as the number it was built from. */
  lemma DescriptionCountReadsBack(count: nat, place: string)
    ensures var d := OfficeDescription(count, place);
            |d| >= 9 + |NatToString(count)| &&
            ParseDecimal(d[9..9 + |NatToString(count)|]) == count
  {
    var d := OfficeDescription(count, place);
    assert d[9..9 + |NatToString(count)|] == NatToString(count);
    ParseNatToString(count);
  }
}
