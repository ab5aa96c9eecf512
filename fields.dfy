/** The body and query fields that validation reports by name. */
module Fields {

  datatype Field = Email | Password | Name | Amount | Category | Description | Date | StartDate | EndDate

  /** The path under which a failing field is reported. */
  function Path(f: Field): string {
    match f
    case Email => "email"
    case Password => "password"
    case Name => "name"
    case Amount => "amount"
    case Category => "category"
    case Description => "description"
    case Date => "date"
    case StartDate => "startDate"
    case EndDate => "endDate"
  }

  /** One check's contribution to the failing fields. */
  function Check(passes: bool, f: Field): set<Field> {
    if passes then {} else {f}
  }
}
