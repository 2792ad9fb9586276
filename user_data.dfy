/**
 * The profile record shared by the evaluator and the provider
 * (src/types/userData.ts), and JavaScript truthiness of its string fields.
 */
module UserDataTypes {
  import opened Wrappers

  /** `UserData`: three nullable strings, an optional timestamp and an optional flag. */
  datatype UserData = UserData(
    name: Option<string>,
    location: Option<string>,
    occupation: Option<string>,
    lastUpdated: Option<int>,
    isComplete: Option<bool>)

  /** A `string | null` is truthy exactly when it is non-null and non-empty. */
  predicate Known(v: Option<string>)
  {
    v.Some? && |v.value| > 0
  }

  /** The three tracked fields, in declaration order. */
  const FieldOrder: seq<string> := ["name", "location", "occupation"]

  /** `data[field]` for a tracked field; any other key reads as absent. */
  function FieldValue(d: UserData, field: string): Option<string>
  {
    if field == "name" then d.name
    else if field == "location" then d.location
    else if field == "occupation" then d.occupation
    else None
  }

  /** Position of a tracked field in `FieldOrder`; 3 for any other key. */
  function Rank(field: string): (k: nat)
    ensures k < 3 <==> field in FieldOrder
    ensures k < 3 ==> FieldOrder[k] == field
  {
    if field == "name" then 0
    else if field == "location" then 1
    else if field == "occupation" then 2
    else 3
  }
}
