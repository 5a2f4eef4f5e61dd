/**
 The data model of the zakat chaincode: the `Zakat` record as it is stored
 in the world state, the abstract stored value (a record that decodes, or
 bytes that do not), the error taxonomy of the contract's operations, and
 the failure-carrying result types the operations return.
 */
module Types {

  /** One zakat transaction. Amounts are whole IDR; the enumerated fields are
      kept as the strings the record carries, because a decoded record may
      hold any string there and the contract compares them as strings. */
  datatype Zakat = Zakat(
    id: string,             // ZKT-YDSF-{MLG|JTM}-YYYYMM-NNNN
    muzakki: string,        // donor's name
    amount: int,            // collected amount
    zakatType: string,      // "fitrah" or "maal"
    status: string,         // "collected" or "distributed"
    organization: string,   // collecting organization
    timestamp: string,      // collection time, RFC 3339
    mustahik: string,       // recipient's name, empty until distributed
    distribution: int,      // distributed amount, zero until distributed
    distributedAt: string   // distribution time, empty until distributed
  )

  /** What a key of the world state holds: bytes that decode to a record, or
      bytes that do not. */
  datatype Stored = Valid(record: Zakat) | Corrupt

  /** The world state: key to stored value. An absent key is the store's nil. */
  type Store = map<string, Stored>

  /** The status literals the contract writes and tests. */
  const Collected: string := "collected"
  const Distributed: string := "distributed"

  /** Every failure the contract's operations report, one per error return. */
  datatype Error =
    | InvalidIdFormat
    | InvalidTimestamp
    | InvalidType
    | InvalidAmount
    | InvalidOrganization
    | InvalidStatus
    | InitialAlreadyExists
    | InvalidInitial(cause: Error)
    | AlreadyExists(id: string)
    | NotFound(id: string)
    | UnmarshalFailed
    | AlreadyDistributed(id: string)
    | AmountExceeded(requested: int, available: int)

  /** The outcome of a validator: pass, or the reason it failed. */
  datatype Check = Pass | Fail(error: Error)

  /** The outcome of an operation that produces a value. */
  datatype Result<+T> = Ok(value: T) | Err(error: Error)
}
