// Detected entities, as the sanitizer's domain model declares them.
module Entities {

  datatype Category = Pii | Secret | Commercial

  datatype EntityType =
    | Person | Phone | Email | Passport | Snils | Inn | BankCard | Kpp | Ogrn | Bik | Account
    | SecretApiKey | SecretJwt | SecretOauth | SecretPassword | SecretDsn | SecretConnString | SecretCardCvc
    | CommercialAmount | CommercialContract | CommercialSupplier | CommercialTerms

  /** `start` and `end` index the text by code point; `value` is the raw substring. */
  datatype Match = Match(
    etype: EntityType, category: Category, start: int, end: int,
    value: string, detector: string, confidence: real)

  function EndKey(m: Match): (int, int) { (m.end, m.start) }

  function StartKey(m: Match): (int, int) { (m.start, m.end) }

  predicate Disjoint(a: Match, b: Match) { a.end <= b.start || b.end <= a.start }

  ghost predicate PairwiseDisjoint(s: seq<Match>) {
    forall i, j :: 0 <= i < j < |s| ==> Disjoint(s[i], s[j])
  }
}
