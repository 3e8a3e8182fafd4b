/** The fixed table of award kinds offered by `/award give` and shown by `/award list`. */
module AwardCatalogue {
  import opened Wrappers

  datatype AwardType = AwardType(name: string, value: string, color: nat, cost: int)

  /** The four award kinds, in the order the command offers them. */
  const AwardTypes: seq<AwardType> := [
    AwardType("🤨 Cringe Moment", "cringe", 0xF7AB5E, 1),
    AwardType("😬 GIGA Cringe Moment", "giga_cringe", 0xF7825E, 2),
    AwardType("😎 Gamer Moment", "gamer", 0x9CF78B, 1),
    AwardType("🤯 GIGA Gamer Moment", "giga_gamer", 0x8BF7C1, 2)
  ]

  /** The largest colour an embed accepts, also the fallback colour of an unknown award. */
  const MaxColor: nat := 0xFFFFFF

  predicate IsGiga(t: AwardType) {
    |t.value| >= 5 && t.value[..5] == "giga_"
  }

  /** `awardTypes.find(type => type.value === value)`: the first entry with that value. */
  function FindAward(value: string): (r: Option<AwardType>)
    ensures r.Some? ==> r.value in AwardTypes && r.value.value == value
    ensures r.None? <==> forall i :: 0 <= i < |AwardTypes| ==> AwardTypes[i].value != value
  {
    FindAwardFrom(value, 0)
  }

  function FindAwardFrom(value: string, from: nat): (r: Option<AwardType>)
    requires from <= |AwardTypes|
    decreases |AwardTypes| - from
    ensures r.Some? ==> exists i :: from <= i < |AwardTypes| && AwardTypes[i] == r.value && r.value.value == value
    ensures r.None? <==> forall i :: from <= i < |AwardTypes| ==> AwardTypes[i].value != value
  {
    if from == |AwardTypes| then None
    else if AwardTypes[from].value == value then Some(AwardTypes[from])
    else FindAwardFrom(value, from + 1)
  }

  /** No two entries share a `value`, so a lookup by value is unambiguous. */
  lemma ValuesDistinct()
    ensures |AwardTypes| == 4
    ensures forall i, j :: 0 <= i < j < |AwardTypes| ==> AwardTypes[i].value != AwardTypes[j].value
  {
  }

  /** Whatever entry carries a value, the lookup returns that entry. */
  lemma {:induction false} FindAwardIsUnique(value: string, i: nat)
    requires i < |AwardTypes| && AwardTypes[i].value == value
    ensures FindAward(value) == Some(AwardTypes[i])
  {
    ValuesDistinct();
    var r := FindAward(value);
    assert r.Some?;
    var j :| 0 <= j < |AwardTypes| && AwardTypes[j] == r.value && r.value.value == value;
    assert i == j;
  }

  /** Every cost is positive, so giving an award always asks the ledger for a deduction. */
  lemma CostsPositive()
    ensures forall t :: t in AwardTypes ==> t.cost > 0
  {
  }

  /** GIGA awards cost two tokens, the plain ones cost one. */
  lemma GigaCostsTwo()
    ensures forall t :: t in AwardTypes ==> t.cost == (if IsGiga(t) then 2 else 1)
  {
    assert AwardTypes[0].value[0] == 'c' && AwardTypes[2].value[1] == 'a';
    assert AwardTypes[1].value[..5] == "giga_" && AwardTypes[3].value[..5] == "giga_";
  }

  /** Every colour fits in 24 bits, the bound the unknown-award fallback also uses. */
  lemma ColorsBounded()
    ensures forall t :: t in AwardTypes ==> t.color <= MaxColor
  {
  }
}
