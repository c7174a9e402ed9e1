/** Shared vocabulary: optional values, results carrying the exception a Java
    call would throw, and the small string operations of java.lang.String the
    core relies on. */
module Common {

  datatype Option<+T> = None | Some(value: T)

  /** The exceptions the modelled code throws or lets escape. */
  datatype Fault =
    | EmptyResultAccessed            // RuntimeException "An empty result is accessed."
    | IndexOutOfBounds               // List.get / array index out of range
    | ClassCast                      // a cast to Integer or String that does not hold
    | NullPointer                    // a null dereference or unboxing of null
    | UnsupportedDataType            // TrainDBException "Not supported data type"
    | ParseFailed                    // "parse failed: ..."
    | NotAggregate                   // "incremental query can be executed on aggregate function"
    | NotPartitioned                 // "incremental query can be executed on partitioned table only."
    | ScanFailed                     // an SQLException of a partition scan, rethrown
    | InvalidName(name: string)      // "invalid name: " and the dotted name
    | InvalidIdentifierLength(n: int) // "invalid identifier length: n"

  datatype Result<+T> = Success(value: T) | Failure(fault: Fault)

  /** ASCII case folding, the part of String.toLowerCase the keywords need. */
  function LowerChar(c: char): char
  {
    if 'A' <= c <= 'Z' then (c as int + 32) as char else c
  }

  function Lower(s: string): (r: string)
    ensures |r| == |s|
    ensures forall i :: 0 <= i < |s| ==> r[i] == LowerChar(s[i])
  {
    if s == [] then [] else [LowerChar(s[0])] + Lower(s[1..])
  }

  predicate StartsWith(s: string, prefix: string)
  {
    |prefix| <= |s| && s[..|prefix|] == prefix
  }

  predicate EndsWith(s: string, suffix: string)
  {
    |suffix| <= |s| && s[|s| - |suffix|..] == suffix
  }

  /** String.contains: `part` occurs somewhere in `s`. */
  predicate Contains(s: string, part: string)
  {
    StartsWith(s, part) || (s != [] && Contains(s[1..], part))
  }

  /** String.join-style concatenation with a separator between adjacent items. */
  function Join(items: seq<string>, sep: string): string
  {
    if |items| == 0 then ""
    else if |items| == 1 then items[0]
    else Join(items[..|items| - 1], sep) + sep + items[|items| - 1]
  }

  /** Decimal rendering of an integer, as Long.toString writes it. */
  function Decimal(n: int): string
    decreases if n < 0 then 1 - n else n
  {
    if n < 0 then "-" + Decimal(-n)
    else if n < 10 then [('0' as int + n) as char]
    else Decimal(n / 10) + [('0' as int + n % 10) as char]
  }

  lemma AppendAssoc<T>(a: seq<T>, b: seq<T>, c: seq<T>)
    ensures a + b + c == a + (b + c)
  {
  }

  lemma AppendEmpty<T>(a: seq<T>)
    ensures a + [] == a && [] + a == a
  {
  }
}
