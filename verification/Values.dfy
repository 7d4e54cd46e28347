/** The plain values of errx: fields, frames, documentation entries and the Report projection. */
module Values {
  import opened Common

  // Class and Severity are one-byte enumerations in the source (errx.go); any byte travels.
  newtype Byte = b: int | 0 <= b < 256

  type Class = Byte
  const EXPECTED: Class := 0
  const DEFECT: Class := 1
  const CANCELLED: Class := 2

  type Severity = Byte
  const SEV_DEBUG: Severity := 0
  const SEV_INFO: Severity := 1
  const SEV_WARN: Severity := 2
  const SEV_ERROR: Severity := 3
  const SEV_FATAL: Severity := 4

  // A field value, restricted to values that survive JSON unchanged.
  datatype Value = Text(s: string) | Number(n: int) | Flag(b: bool) | Null

  datatype Field = Field(key: string, value: Value, safe: bool)

  datatype Frame = Frame(function_: string, file: string, line: int)

  datatype DocEntry = DocEntry(url: string, summary: string, remediation: string)

  const REDACTED_MARKER: string := "\U{2039}redacted\U{203A}"

  // A positive duration stands for its text, which is assumed to parse back; None for "".
  type Duration = Option<int>

  // What a report says in single values, and what it lists besides the fields.
  datatype Heading = Heading(
    domain: string, code: string, class_: Class, severity: Severity,
    message: string, public: string, hint: string, owner: string,
    docURL: string, localized: map<string, string>, fingerprint: string,
    retryable: bool, retryAfter: Duration, traceID: string, spanID: string)

  datatype Trail = Trail(stack: seq<Frame>, trace: seq<Frame>, suppressed: seq<string>, cause: string)

  datatype Report = Report(head: Heading, fields: seq<Field>, trail: Trail)
}
