/** Types shared by every part of the model: Java's nullable references,
    the exceptions the services throw, and the argument of equals(Object). */
module Common {

  /** A Java reference that may be null. */
  datatype Option<+T> = None | Some(value: T)

  /** The exceptions the core throws, as values. */
  datatype Error =
    | NoSuchElement(message: string)     // java.util.NoSuchElementException
    | IllegalArgument(message: string)   // IllegalArgumentException
    | IllegalState(message: string)      // IllegalStateException
    | UsernameNotFound(message: string)  // Spring's UsernameNotFoundException
    | DataIntegrityViolation             // a unique column refused the flush
    | Unauthenticated                    // the filter chain refused an anonymous caller
    | AccessDenied                       // a @PreAuthorize expression evaluated to false

  /** Either the value a Java method returns or the exception it throws. */
  datatype Result<+T> = Ok(value: T) | Err(error: Error)

  /** What a Java `void` method ends with: normal return or an exception. */
  datatype Outcome = Pass | Fail(error: Error)

  /** The argument `o` of `equals(Object o)`, seen from the receiver:
      the receiver itself, null, another object of the same class, or
      an object of some other class. */
  datatype ObjectRef<+T> = This | Null | SameClass(obj: T) | OtherClass

  /** Java's `Objects.equals` on two nullable boxed values. */
  function ObjectsEquals<T(==)>(a: Option<T>, b: Option<T>): (r: bool)
    ensures r <==> a == b
  {
    match (a, b)
    case (None, None) => true
    case (Some(x), Some(y)) => x == y
    case _ => false
  }

  /** The 64-bit two's-complement representation of an id. Ids are unbounded here,
      so this takes them modulo 2^64. */
  function LongBits(v: nat): bv64
  {
    (v % 0x1_0000_0000_0000_0000) as bv64
  }

  /** `Long.hashCode`: the two 32-bit halves of the 64-bit value xor-ed. */
  function LongHashCode(bits: bv64): (r: bv32)
    ensures bits < 0x1_0000_0000 ==> r == bits as bv32
    ensures r == ((bits & 0xFFFF_FFFF) as bv32) ^ ((bits >> 32) as bv32)
  {
    ((bits ^ (bits >> 32)) & 0xFFFF_FFFF) as bv32
  }

  /** `Objects.hash(id)` for one nullable Long: `31 * 1 + (id == null ? 0 : id.hashCode())`,
      in 32-bit wrap-around arithmetic. */
  function ObjectsHashOfId(id: Option<nat>): (r: bv32)
    ensures id.None? ==> r == 31
    ensures id.Some? ==> r == 31 + LongHashCode(LongBits(id.value))
  {
    if id.None? then 31 else 31 + LongHashCode(LongBits(id.value))
  }
}
