/** Values shared by every part of the model: optional values, uuids as the
    service stores them, request strings that ought to hold a uuid, the text
    forms the service prints, and the HTTP status codes it answers with. */
module Base {

  datatype Option<+T> = None | Some(value: T)

  /** Number of distinct 128-bit uuids. */
  const UuidBound: nat := 0x1_0000_0000_0000_0000_0000_0000_0000_0000

  /** A `uuid.UUID`: its sixteen bytes read as one big-endian number. */
  type Uuid = u: nat | u < UuidBound

  /** `uuid.Nil`, the zero value gorm leaves out of a struct condition. */
  const NilUuid: Uuid := 0

  /** A request field that should hold a uuid. Only three facts about such
      a string matter to the service: whether `uuid.Parse` accepts it and
      which uuid it then denotes, whether it is literally `id.String()`, and,
      for a rejected string, the uuid `uuid.Parse` returns beside its
      error. */
  datatype RawId =
    | Canonical(id: Uuid)              // exactly id.String()
    | Variant(id: Uuid, text: string)  // another spelling uuid.Parse accepts (upper case, braces, urn prefix, no dashes)
    | Malformed(text: string, partial: Uuid)  // rejected by uuid.Parse, which returns `partial` with the error
  {
    /** `uuid.Parse`; a `None` is the error it returns. */
    function Parse(): (r: Option<Uuid>)
      ensures r.None? <==> Malformed?
    {
      if Malformed? then None else Some(id)
    }

    /** The string as it arrived. */
    function Text(): string {
      match this
      case Canonical(u) => UuidText(u)
      case Variant(_, t) => t
      case Malformed(t, _) => t
    }
  }

  /** HTTP status codes the service answers with (net/http). */
  const StatusOK: int := 200
  const StatusCreated: int := 201
  const StatusAccepted: int := 202
  const StatusForbidden: int := 403
  const StatusConflict: int := 409

  /** pb.DefaultResponse, the answer of every write RPC. */
  datatype DefaultResponse = DefaultResponse(status: int, message: string, error: string)

  /** How a handler ends: it answers, or a `uuid.MustParse` on the named
      request string panics. The server installs no recovery interceptor,
      so a panic ends the process without an answer; writes already made
      outside a transaction stay. */
  datatype Reply<T> = Answered(response: T) | Panicked(cause: Panic)

  /** What a handler panics on: `uuid.MustParse` of a string it rejects,
      or reading the pick of a prospect that has none loaded. */
  datatype Panic = BadUuid(raw: RawId) | NilPick(prospect: Uuid)

  /** The error the listings give for an unparsable franchise id. It quotes
      the uuid `uuid.Parse` returned with its error: the bytes decoded
      before the failure, the nil uuid when the length or a dash was
      already wrong. */
  function FranchiseIdError(raw: RawId): string
    requires raw.Malformed?
  {
    "Could not parse uuid for franchise id " + Quoted(UuidText(raw.partial)) + "."
  }

  /** `order` lists every member of `s` once and nothing else: the rows of a
      query, in whatever order the store returns them. */
  ghost predicate Enumerates<T>(order: seq<T>, s: set<T>)
  {
    && (forall i :: 0 <= i < |order| ==> order[i] in s)
    && (forall x :: x in s ==> x in order)
    && (forall i, j :: 0 <= i < j < |order| ==> order[i] != order[j])
  }

  /** Taking one more row that was not yet taken extends the enumeration. */
  lemma EnumerationStep<T>(order: seq<T>, done: set<T>, x: T)
    requires Enumerates(order, done) && x !in done
    ensures Enumerates(order + [x], done + {x})
  {
    forall y | y in done + {x}
      ensures y in order + [x]
    {
      if y != x {
        var i :| 0 <= i < |order| && order[i] == y;
        assert (order + [x])[i] == y;
      }
    }
  }

  /** A query's rows are as many as the rows that match it. */
  lemma {:induction false} EnumerationLength<T>(order: seq<T>, s: set<T>)
    requires Enumerates(order, s)
    ensures |order| == |s|
  {
    if order != [] {
      var last := order[|order| - 1];
      var front := order[..|order| - 1];
      forall x | x in s - {last}
        ensures x in front
      {
        var i :| 0 <= i < |order| && order[i] == x;
      }
      EnumerationLength(front, s - {last});
    }
  }

  /** `%q` of a value whose text is `s` (no escaping is needed for the
      texts the service quotes). */
  function Quoted(s: string): string
  {
    "\"" + s + "\""
  }

  function HexDigit(d: nat): char
    requires d < 16
  {
    "0123456789abcdef"[d]
  }

  /** The lowest `width` hexadecimal digits of `v`, most significant first. */
  function Hex(v: nat, width: nat): (s: string)
    ensures |s| == width
  {
    if width == 0 then "" else Hex(v / 16, width - 1) + [HexDigit(v % 16)]
  }

  /** `uuid.UUID.String()`: 32 lower-case hex digits grouped 8-4-4-4-12. */
  function UuidText(u: Uuid): (s: string)
    ensures |s| == 36 && s[8] == s[13] == s[18] == s[23] == '-'
  {
    var h := Hex(u, 32);
    h[..8] + "-" + h[8..12] + "-" + h[12..16] + "-" + h[16..20] + "-" + h[20..]
  }

  function DigitChar(d: nat): char
    requires d < 10
  {
    "0123456789"[d]
  }

  function Digits(n: nat): (s: string)
    ensures |s| > 0
  {
    if n < 10 then [DigitChar(n)] else Digits(n / 10) + [DigitChar(n % 10)]
  }

  /** `fmt.Sprintf("%v", n)` (and `%d`) of an integer. */
  function DecimalString(n: int): (s: string)
    ensures |s| > 0
  {
    if n < 0 then "-" + Digits(-n) else Digits(n)
  }

  /** A nullable integer column as the listings print it: "" for null. */
  function NumberOrEmpty(v: Option<int>): string
  {
    if v.None? then "" else DecimalString(v.value)
  }

  /** The store's source of new primary keys (`uuid.New()` in the
      `BeforeCreate` hooks): the k-th row inserted in a call gets `gen(k)`.
      A usable source never repeats itself and never hits a key in use. */
  ghost predicate FreshSupply(gen: nat -> Uuid, used: set<Uuid>)
  {
    && Unrepeating(gen)
    && (forall k :: gen(k) !in used)
  }

  ghost predicate Unrepeating(gen: nat -> Uuid)
  {
    forall i, j :: i != j ==> gen(i) != gen(j)
  }
}
