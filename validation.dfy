/** The Bean Validation constraints the service uses (`@NotBlank`, `@Size`,
    `@Positive`), each written as an explicit check that returns the list of
    violations it finds, as (field, rejected value, message) triples. */
module Validation {
  import opened Wrappers

  /** The value a violation reports as rejected: a string, a `null`, or a
      `Long` path parameter. */
  datatype Value = NullValue | StringValue(s: string) | LongValue(n: int)

  /** One failed constraint: the property it was checked on, the value that
      failed it and the constraint's message. */
  datatype Violation = Violation(field: string, rejectedValue: Value, message: string)

  /** Default message of `@Positive`. */
  const PositiveMessage := "must be greater than 0"

  /** The rejected-value form of a nullable string. */
  function AsValue(v: Option<string>): (r: Value)
    ensures r.NullValue? <==> v.None?
    ensures v.Some? ==> r == StringValue(v.value)
  {
    match v
    case None => NullValue
    case Some(s) => StringValue(s)
  }

  /** The characters `String.trim()` strips: every code point up to U+0020.
      `@NotBlank` accepts a string exactly when trimming leaves something. */
  predicate IsTrimmed(c: char)
  {
    c <= ' '
  }

  /** A value `@NotBlank` rejects: null, empty, or made only of trimmed characters. */
  predicate IsBlank(v: Option<string>)
  {
    v.None? || forall i :: 0 <= i < |v.value| ==> IsTrimmed(v.value[i])
  }

  /** A value `@Size(min, max)` accepts; `@Size` treats null as valid. */
  predicate SizeWithin(v: Option<string>, min: nat, max: nat)
  {
    v.None? || min <= |v.value| <= max
  }

  /** `@NotBlank(message)` on `field`. */
  function NotBlank(field: string, v: Option<string>, message: string): (r: seq<Violation>)
    ensures IsBlank(v) ==> r == [Violation(field, AsValue(v), message)]
    ensures !IsBlank(v) ==> r == []
  {
    if IsBlank(v) then [Violation(field, AsValue(v), message)] else []
  }

  /** `@Size(min, max, message)` on `field`. */
  function Size(field: string, v: Option<string>, min: nat, max: nat, message: string): (r: seq<Violation>)
    ensures SizeWithin(v, min, max) ==> r == []
    ensures !SizeWithin(v, min, max) ==> r == [Violation(field, AsValue(v), message)]
  {
    if SizeWithin(v, min, max) then [] else [Violation(field, AsValue(v), message)]
  }

  /** `@Positive` on a `Long` method parameter whose property path is `path`. */
  function Positive(path: string, n: int): (r: seq<Violation>)
    ensures n > 0 <==> r == []
    ensures n <= 0 ==> |r| == 1 && r[0].rejectedValue == LongValue(n) && r[0].message == PositiveMessage
    ensures forall w :: w in r ==> w.field == path
  {
    if n > 0 then [] else [Violation(path, LongValue(n), PositiveMessage)]
  }
}
