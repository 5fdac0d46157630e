/**
 * The lists the hooks start from when nothing is stored: four events and
 * six celebrants, numbered from 1 (numerically in memory, as decimal text
 * in local storage).
 */
module SeedLists {
  import opened Wrappers
  import opened Strings
  import opened Js
  import opened ListHooks

  const SeedMessage: string := "Happy Birthday to the one who fills my life with meaning. May this year bring you the same joy, warmth, and love you have given me every single day."
  const SeedImage: string := "/contact-p-p.png"
  const SeedDate: string := "2025-01-15"

  const EventTypes: seq<string> := ["Birthday", "Birthday", "Wedding", "Birthday"]
  const EventCelebrants: seq<string> := ["John Doe", "Jon Doe", "Jon Doe", "Jon Doe"]

  const CelebrantNames: seq<string> := ["John Don", "Jane Smith", "Bob Johnson", "Alice Williams", "Mike Davis", "Sarah Brown"]
  const CelebrantRelationships: seq<string> := ["Father", "Mother", "Brother", "Sister", "Uncle", "Friend"]
  const CelebrantAgeGroups: seq<string> := ["Adult", "Adult", "Young Adult", "Teen", "Adult", "Young Adult"]
  const CelebrantLikes: seq<string> := [
    "Reading, gardening, and cooking", "Music, traveling, and painting", "Sports, gaming, and movies",
    "Dancing, social media, and fashion", "Fishing, woodworking, and BBQ", "Photography, hiking, and coffee"
  ]

  /** The id of the `n`-th seeded record: the number, or its decimal text. */
  function SeedId(variant: Variant, n: nat): Value {
    match variant
    case Memory => Num(n)
    case LocalStorage => Str(NatToString(n))
  }

  /** Different positions get different ids, in both variants. */
  lemma SeedIdInjective(variant: Variant, m: nat, n: nat)
    requires SeedId(variant, m) == SeedId(variant, n)
    ensures m == n
  {
    if variant.LocalStorage? {
      NatToStringInjective(m, n);
    }
  }

  function EventRecord(variant: Variant, i: nat): Record
    requires i < 4
  {
    map[KeyName(variant) := SeedId(variant, i + 1), "event" := Str(EventTypes[i]), "celebrant" := Str(EventCelebrants[i]),
        "date" := Str(SeedDate), "message" := Str(SeedMessage)]
  }

  function CelebrantRecord(variant: Variant, i: nat): Record
    requires i < 6
  {
    map[KeyName(variant) := SeedId(variant, i + 1), "name" := Str(CelebrantNames[i]), "image" := Str(SeedImage),
        "relationship" := Str(CelebrantRelationships[i]), "ageGroup" := Str(CelebrantAgeGroups[i]),
        "likes" := Str(CelebrantLikes[i])]
  }

  /** The seeded events, with ids 1 to 4. */
  function SeedEvents(variant: Variant): (r: seq<Record>)
    ensures |r| == 4
    ensures forall i :: 0 <= i < 4 ==> HasId(r[i], KeyName(variant), SeedId(variant, i + 1))
  {
    seq(4, i requires 0 <= i < 4 => EventRecord(variant, i))
  }

  /** The seeded celebrants, with ids 1 to 6. */
  function SeedCelebrants(variant: Variant): (r: seq<Record>)
    ensures |r| == 6
    ensures forall i :: 0 <= i < 6 ==> HasId(r[i], KeyName(variant), SeedId(variant, i + 1))
  {
    seq(6, i requires 0 <= i < 6 => CelebrantRecord(variant, i))
  }

  /** No two records of a list share an id. */
  predicate IdsDistinct(items: seq<Record>, key: string) {
    forall i, j :: 0 <= i < j < |items| ==> Get(items[i], key) != Get(items[j], key)
  }

  /** Both seeded lists have distinct ids, in both variants. */
  lemma SeedIdsDistinct(variant: Variant)
    ensures IdsDistinct(SeedEvents(variant), KeyName(variant))
    ensures IdsDistinct(SeedCelebrants(variant), KeyName(variant))
  {
    var key := KeyName(variant);
    var events, celebrants := SeedEvents(variant), SeedCelebrants(variant);
    forall i, j | 0 <= i < j < |events| ensures Get(events[i], key) != Get(events[j], key) {
      if Get(events[i], key) == Get(events[j], key) {
        SeedIdInjective(variant, i + 1, j + 1);
      }
    }
    forall i, j | 0 <= i < j < |celebrants| ensures Get(celebrants[i], key) != Get(celebrants[j], key) {
      if Get(celebrants[i], key) == Get(celebrants[j], key) {
        SeedIdInjective(variant, i + 1, j + 1);
      }
    }
  }

  /** In a seeded list, looking up the id `n` finds the `n`-th record. */
  lemma FindSeeded(variant: Variant, n: nat)
    requires 1 <= n <= 6
    ensures FindById(SeedCelebrants(variant), KeyName(variant), SeedId(variant, n)) == Some(SeedCelebrants(variant)[n - 1])
    ensures n <= 4 ==> FindById(SeedEvents(variant), KeyName(variant), SeedId(variant, n)) == Some(SeedEvents(variant)[n - 1])
  {
    SeedIdsDistinct(variant);
    FindListed(SeedCelebrants(variant), KeyName(variant), n - 1);
    if n <= 4 {
      FindListed(SeedEvents(variant), KeyName(variant), n - 1);
    }
  }

  /** With distinct ids, finding a listed record's id finds that record. */
  lemma FindListed(items: seq<Record>, key: string, i: nat)
    requires IdsDistinct(items, key) && i < |items|
    ensures FindById(items, key, Get(items[i], key)) == Some(items[i])
  {
    var found := FindById(items, key, Get(items[i], key));
    var k :| 0 <= k < |items| && items[k] == found.value && HasId(found.value, key, Get(items[i], key))
      && forall j :: 0 <= j < k ==> !HasId(items[j], key, Get(items[i], key));
  }
}
