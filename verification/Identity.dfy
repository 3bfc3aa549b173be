/** The id-dedup key: canonical form, references and message type in one string. */
module Identity {
  import opened Wrappers

  datatype SchemaType = Avro | Protobuf | Json

  datatype Reference = Reference(name: string, subject: string, version: int)

  // Lexicographic order by code point, as for UTF-8 bytes.
  predicate Leq(a: string, b: string) {
    a == [] || (b != [] && (a[0] < b[0] || (a[0] == b[0] && Leq(a[1..], b[1..]))))
  }

  function InsertString(x: string, sorted: seq<string>): seq<string> {
    if sorted == [] || Leq(x, sorted[0]) then [x] + sorted else [sorted[0]] + InsertString(x, sorted[1..])
  }

  function Sort(xs: seq<string>): seq<string> {
    if xs == [] then [] else InsertString(xs[0], Sort(xs[1..]))
  }

  function Join(xs: seq<string>, separator: string): string {
    if xs == [] then [] else if |xs| == 1 then xs[0] else xs[0] + separator + Join(xs[1..], separator)
  }

  function Digits(n: nat): string {
    if n < 10 then ['0' + n as char] else Digits(n / 10) + ['0' + (n % 10) as char]
  }

  function Decimal(n: int): string { if n < 0 then "-" + Digits(-n) else Digits(n) }

  function Fingerprint(r: Reference): string {
    r.name + "\U{1}" + r.subject + "\U{1}" + Decimal(r.version)
  }

  function Fingerprints(refs: seq<Reference>): seq<string> {
    seq(|refs|, i requires 0 <= i < |refs| => Fingerprint(refs[i]))
  }

  function DedupKey(canonical: string, refs: seq<Reference>, messageType: Option<string>): string {
    if refs == [] && messageType.None? then canonical
    else
      canonical + "\U{0}" + Join(Sort(Fingerprints(refs)), "\U{2}") + "\U{0}"
      + match messageType case None => "" case Some(t) => t
  }
}
