/** A part as the frontend pages receive it from the API (the fields the
    pages use; the image and timestamps play no part in their logic). */
module ClientParts {
  import opened Base

  datatype Part = Part(id: int, name: string, brand: Option<string>, price: real, stock: int,
                       category: Option<string>)

  /** `xs` is `ys` with some elements left out, the rest in their order. */
  predicate IsSubsequence<T(==)>(xs: seq<T>, ys: seq<T>)
    decreases |ys|
  {
    xs == [] || (|ys| > 0 && ((xs[0] == ys[0] && IsSubsequence(xs[1..], ys[1..])) || IsSubsequence(xs, ys[1..])))
  }
}
