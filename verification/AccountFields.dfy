/** The text fields of an account that handlers read, and what it means to read them. */
module AccountFields {
  import opened Options
  import opened JsonMerge

  const ACCOUNT_NAME := "AccountName"
  const NAME := "Name"
  const ENVIRONMENT := "Environment"

  const TEXT_FIELDS := [ACCOUNT_NAME, NAME, ENVIRONMENT]

  /** One top-level field of a document. */
  function Field(j: Json, f: string): Option<Json> {
    if f in FieldsOf(j) then Some(FieldsOf(j)[f]) else None
  }

  /** Reading the field as text, with the empty text for a field that is not there, does not throw. */
  predicate Readable(j: Json, f: string) {
    match Field(j, f)
    case None => true
    case Some(v) => v.Text?
  }

  /** The text fields that cannot be read any more. */
  function UnreadIn(j: Json): set<string> {
    set f | f in TEXT_FIELDS && !Readable(j, f)
  }

  /** The name a record is stored under; a record without one is refused. */
  function NameOf(j: Json): (name: Option<string>)
    ensures name.Some? <==> Readable(j, ACCOUNT_NAME) && Field(j, ACCOUNT_NAME) !in {None, Some(Text(""))}
  {
    match Field(j, ACCOUNT_NAME)
    case Some(Text(name)) => if name == "" then None else Some(name)
    case _ => None
  }
}
