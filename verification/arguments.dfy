/** Arguments: the closed set of value kinds an entry can hold, how a caller's
    value is accepted into one, and how a value becomes command-line tokens. */
module Arguments {
  import opened Results

  /** A file-system path. Its display text is taken to be the path itself. */
  type Path = string

  function PathDisplay(p: Path): string {
    p
  }

  /** Rust's `bool::to_string`. */
  function BoolText(b: bool): string {
    if b then "true" else "false"
  }

  /** A kind of argument and, once filled, its value. */
  datatype Argument =
    | CollectionText(texts: Option<seq<string>>)
    | PathPattern(path: Option<Path>)
    | CollectionPathPattern(paths: Option<seq<Path>>)
    | Text(text: Option<string>)
    | BooleanFlag(flag: Option<bool>)

  predicate IsCollection(a: Argument) {
    a.CollectionText? || a.CollectionPathPattern?
  }

  /** Whether the argument holds a value. */
  predicate IsFilled(a: Argument) {
    match a
    case CollectionText(x) => x.Some?
    case PathPattern(x) => x.Some?
    case CollectionPathPattern(x) => x.Some?
    case Text(x) => x.Some?
    case BooleanFlag(x) => x.Some?
  }

  predicate SameKind(a: Argument, b: Argument) {
    (a.CollectionText? <==> b.CollectionText?) &&
    (a.PathPattern? <==> b.PathPattern?) &&
    (a.CollectionPathPattern? <==> b.CollectionPathPattern?) &&
    (a.Text? <==> b.Text?) &&
    (a.BooleanFlag? <==> b.BooleanFlag?)
  }

  /** An argument built straight from a string (owned or literal). */
  function FromText(s: string): (a: Argument)
    ensures a.Text? && IsFilled(a)
    ensures GenerateTokens(a) == Ok([s])
  {
    Text(Some(s))
  }

  /** An argument built straight from a path. */
  function FromPath(p: Path): (a: Argument)
    ensures a.PathPattern? && IsFilled(a)
    ensures GenerateTokens(a) == Ok([PathDisplay(p)])
  {
    PathPattern(Some(p))
  }

  // ---------------------------------------------------------------------------
  // Filling

  /** A value a caller may fill an argument with: a string, a path, a boolean,
      or a path that may be absent. */
  datatype Value =
    | TextValue(text: string)
    | PathValue(path: Path)
    | BoolValue(flag: bool)
    | OptionalPathValue(optPath: Option<Path>)

  /** Which argument kinds take which values: text only into `Text`; a path
      into `PathPattern` or, as its display text, into `Text`; a boolean into
      `BooleanFlag` or, as `"true"`/`"false"`, into `Text`. */
  predicate Accepts(a: Argument, v: Value) {
    match v
    case TextValue(_) => a.Text?
    case PathValue(_) => a.PathPattern? || a.Text?
    case BoolValue(_) => a.BooleanFlag? || a.Text?
    case OptionalPathValue(_) => a.PathPattern? || a.Text?
  }

  /** The tokens a value stands for, whichever argument it is filled into. */
  function ValueTokens(v: Value): seq<string> {
    match v
    case TextValue(s) => [s]
    case PathValue(p) => [PathDisplay(p)]
    case BoolValue(b) => [BoolText(b)]
    case OptionalPathValue(o) => if o.Some? then [PathDisplay(o.value)] else []
  }

  /** The argument after a value is filled into it: the payload is replaced,
      the kind stays. A value the kind does not take is a type mismatch. */
  function FillArgument(a: Argument, v: Value): (r: Result<Argument>)
    ensures r.Ok? <==> Accepts(a, v)
    ensures r.Err? ==> r.error == TypeMismatch
    ensures r.Ok? ==> SameKind(a, r.value)
  {
    match v
    case TextValue(s) =>
      if a.Text? then Ok(Text(Some(s))) else Err(TypeMismatch)
    case PathValue(p) =>
      if a.PathPattern? then Ok(PathPattern(Some(p)))
      else if a.Text? then Ok(Text(Some(PathDisplay(p))))
      else Err(TypeMismatch)
    case BoolValue(b) =>
      if a.BooleanFlag? then Ok(BooleanFlag(Some(b)))
      else if a.Text? then Ok(Text(Some(BoolText(b))))
      else Err(TypeMismatch)
    case OptionalPathValue(o) =>
      if a.PathPattern? then Ok(PathPattern(o))
      else if a.Text? then Ok(Text(if o.Some? then Some(PathDisplay(o.value)) else None))
      else Err(TypeMismatch)
  }

  // ---------------------------------------------------------------------------
  // Vectorisation: turning values into tokens

  /** A value that knows its tokens: a string, a path, a boolean, or a list of
      such values (lists may nest). */
  datatype Vectorizable =
    | VText(text: string)
    | VPath(path: Path)
    | VBool(flag: bool)
    | VList(items: seq<Vectorizable>)

  predicate IsScalar(v: Vectorizable) {
    !v.VList?
  }

  /** The tokens of a value: one for a scalar, the concatenation of the items'
      tokens for a list. */
  function Tokens(v: Vectorizable): (r: seq<string>)
    ensures IsScalar(v) ==> |r| == 1
    decreases v, 1
  {
    match v
    case VText(s) => [s]
    case VPath(p) => [PathDisplay(p)]
    case VBool(b) => [BoolText(b)]
    case VList(xs) => Concat(xs, v)
  }

  /** The tokens of each item of `xs`, in list order, one after the other.
      `whole` is the value the list belongs to; it only bounds the recursion. */
  function Concat(xs: seq<Vectorizable>, ghost whole: Vectorizable): seq<string>
    requires forall k :: 0 <= k < |xs| ==> xs[k] < whole
    decreases whole, 0, |xs|
  {
    if xs == [] then [] else Concat(xs[..|xs| - 1], whole) + Tokens(xs[|xs| - 1])
  }

  /** The tokens of an optional value: none when it is absent. */
  function OptionalVectorization(o: Option<Vectorizable>): (r: seq<string>)
    ensures o.None? ==> r == []
    ensures o.Some? ==> r == Tokens(o.value)
  {
    match o
    case Some(n) => Tokens(n)
    case None => []
  }

  /** The tokens of a value, built as the source builds a list's tokens: one
      item at a time, extending the result. */
  method Vectorize(v: Vectorizable) returns (r: seq<string>)
    ensures r == Tokens(v)
    decreases v
  {
    match v
    case VText(s) => r := [s];
    case VPath(p) => r := [PathDisplay(p)];
    case VBool(b) => r := [BoolText(b)];
    case VList(xs) =>
      r := [];
      for i := 0 to |xs|
        invariant r == Concat(xs[..i], v)
      {
        var t := Vectorize(xs[i]);
        assert xs[..i + 1][..i] == xs[..i];
        r := r + t;
      }
      assert xs[..|xs|] == xs;
  }

  /** The tokens of a list split anywhere are the tokens of the two parts. */
  lemma {:induction false} ConcatAppend(xs: seq<Vectorizable>, ys: seq<Vectorizable>, whole: Vectorizable)
    requires forall k :: 0 <= k < |xs| ==> xs[k] < whole
    requires forall k :: 0 <= k < |ys| ==> ys[k] < whole
    ensures Concat(xs + ys, whole) == Concat(xs, whole) + Concat(ys, whole)
    decreases |ys|
  {
    if ys != [] {
      var front := ys[..|ys| - 1];
      ConcatAppend(xs, front, whole);
      assert (xs + ys)[..|xs + ys| - 1] == xs + front;
      assert (xs + ys)[|xs + ys| - 1] == ys[|ys| - 1];
      calc {
        Concat(xs + ys, whole);
        Concat(xs + front, whole) + Tokens(ys[|ys| - 1]);
        Concat(xs, whole) + Concat(front, whole) + Tokens(ys[|ys| - 1]);
        Concat(xs, whole) + Concat(ys, whole);
      }
    } else {
      assert xs + ys == xs;
    }
  }

  /** A list of scalars has exactly one token per item, in list order. */
  lemma {:induction false} ScalarListTokens(xs: seq<Vectorizable>, whole: Vectorizable)
    requires forall k :: 0 <= k < |xs| ==> xs[k] < whole && IsScalar(xs[k])
    ensures |Concat(xs, whole)| == |xs|
    ensures forall k :: 0 <= k < |xs| ==> Concat(xs, whole)[k] == Tokens(xs[k])[0]
    decreases |xs|
  {
    if xs != [] {
      ScalarListTokens(xs[..|xs| - 1], whole);
    }
  }

  /** The tokens of a list value made of scalars: one per item, in order. */
  lemma FlatListTokens(xs: seq<Vectorizable>)
    requires forall k :: 0 <= k < |xs| ==> IsScalar(xs[k])
    ensures |Tokens(VList(xs))| == |xs|
    ensures forall k :: 0 <= k < |xs| ==> Tokens(VList(xs))[k] == Tokens(xs[k])[0]
  {
    ScalarListTokens(xs, VList(xs));
  }

  // ---------------------------------------------------------------------------
  // Generation

  /** The tokens of a single-valued argument: one token when it holds a value
      (a boolean as `"true"`/`"false"`, so `false` still gives one), none when
      it is empty. Collection kinds are not supported. */
  function GenerateTokens(a: Argument): (r: Result<seq<string>>)
    ensures r.Err? <==> IsCollection(a)
    ensures r.Err? ==> r.error == UnsupportedKind
    ensures r.Ok? ==> |r.value| == if IsFilled(a) then 1 else 0
  {
    match a
    case BooleanFlag(x) => Ok(OptionalVectorization(if x.Some? then Some(VBool(x.value)) else None))
    case Text(x) => Ok(OptionalVectorization(if x.Some? then Some(VText(x.value)) else None))
    case PathPattern(x) => Ok(OptionalVectorization(if x.Some? then Some(VPath(x.value)) else None))
    case _ => Err(UnsupportedKind)
  }

  /** Filling a value and then generating gives the value's own tokens,
      whichever kind accepted it. */
  lemma FillThenGenerate(a: Argument, v: Value)
    requires Accepts(a, v)
    ensures GenerateTokens(FillArgument(a, v).value) == Ok(ValueTokens(v))
  {
  }
}
