/**
 The fixed tables of the piano screen: which key sounds which swara, and the catalogue of
 raagas with the ordered swara pattern each one is recognised by.
 */
module Notes {

  /** A keyboard key as the screen names it: "A" .. "L" for the white keys. */
  type Key = string

  /** The swara labels; `UpperSa` and `UpperRi` are the labels Sa' and Ri' of the upper octave. */
  datatype Swara = Sa | Ri | Ga | Ma | Pa | Da | Ni | UpperSa | UpperRi

  /** One recorded key press: the key and its offset in milliseconds from the recording start. */
  datatype Event = Event(key: Key, time: int)

  const KeyToSwara: map<Key, Swara> :=
    map["A" := Sa, "S" := Ri, "D" := Ga, "F" := Ma, "G" := Pa,
        "H" := Da, "J" := Ni, "K" := UpperSa, "L" := UpperRi]

  datatype Raaga = Raaga(name: string, pattern: seq<Swara>)

  /** The catalogue, in the order the screen tries it. */
  const Raagas: seq<Raaga> := [
    Raaga("Mayamalavagowla", [Sa, Ri, Ga, Ma, Pa, Da, Ni]),
    Raaga("Shankarabharanam", [Sa, Ri, Ga, Ma, Pa, Da, Ni, UpperSa]),
    Raaga("Mohanam", [Sa, Ri, Ga, Pa, Da]),
    Raaga("Kalyani", [Sa, Ri, Ga, Ma, Pa, Da, Ni]),
    Raaga("Bilahari", [Sa, Ri, Ga, Pa, Da, UpperSa]),
    Raaga("Hamsadhwani", [Sa, Ri, Ga, Pa, Ni]),
    Raaga("Kharaharapriya", [Sa, Ri, Ga, Ma, Pa, Da, Ni]),
    Raaga("Kambhoji", [Sa, Ri, Ga, Ma, Pa, Da, UpperSa]),
    Raaga("Abhogi", [Sa, Ri, Ga, Ma, Da]),
    Raaga("Durbar", [Sa, Ri, Ga, Ma, Pa, Ni]),
    Raaga("Revati", [Sa, Ri, Ma, Pa, Ni]),
    Raaga("Sankarabharanam", [Sa, Ri, Ga, Ma, Pa, Da, Ni]),
    Raaga("Ritigowla", [Sa, Ga, Ma, Pa, Da, Ni]),
    Raaga("Charukesi", [Sa, Ri, Ga, Ma, Pa, Da, Ni]),
    Raaga("Todi", [Sa, Ri, Ga, Ma, Pa, Da, Ni]),
    Raaga("Sarasangi", [Sa, Ri, Ga, Ma, Pa, Da, Ni])
  ]

  /** The index of the first catalogue entry called `name`; the screen's lookup by name. */
  function IndexOf(name: string): (r: int)
    ensures -1 <= r < |Raagas|
    ensures r >= 0 ==> Raagas[r].name == name
    ensures forall j :: 0 <= j < |Raagas| && j != r ==> Raagas[j].name != name
  {
    IndexFrom(name, 0)
  }

  function IndexFrom(name: string, from: nat): (r: int)
    requires from <= |Raagas|
    requires forall j :: 0 <= j < from ==> Raagas[j].name != name
    decreases |Raagas| - from
    ensures -1 <= r < |Raagas|
    ensures r >= 0 ==> Raagas[r].name == name
    ensures forall j :: 0 <= j < |Raagas| && j != r ==> Raagas[j].name != name
  {
    if from == |Raagas| then -1
    else if Raagas[from].name == name then
      NamesDistinctFrom(from);
      from
    else IndexFrom(name, from + 1)
  }

  /** No two catalogue entries share a name. */
  lemma NamesDistinctFrom(k: nat)
    requires k < |Raagas|
    ensures forall j :: 0 <= j < |Raagas| && j != k ==> Raagas[j].name != Raagas[k].name
  {
  }
}
