/** Entries: one configurable slot of a command's schema (a name, an argument
    and a default policy), filled in place from a caller's value, then turned
    into tokens through the fill, conform and name steps. */
module Entries {
  import opened Results
  import opened Names
  import opened Arguments

  /** What to do when an entry produced no token. */
  datatype DefaultValue =
    | Mandatory                  // absence is an error
    | Skip                       // absence contributes nothing
    | Default(constant: Argument) // absence is replaced by a constant argument

  /** The tokens of an entry after its default policy is applied: a value that
      gives tokens wins over any policy; with none, `Skip` gives nothing,
      `Mandatory` fails and `Default(x)` gives the tokens of `x`. An argument
      that cannot generate fails whatever the policy. */
  function ConformTokens(d: DefaultValue, a: Argument): (r: Result<seq<string>>)
    ensures GenerateTokens(a).Err? ==> r == GenerateTokens(a)
    ensures GenerateTokens(a).Ok? && GenerateTokens(a).value != [] ==> r == GenerateTokens(a)
    ensures GenerateTokens(a) == Ok([]) && d.Skip? ==> r == Ok([])
    ensures GenerateTokens(a) == Ok([]) && d.Mandatory? ==> r == Err(MissingMandatory)
    ensures GenerateTokens(a) == Ok([]) && d.Default? ==> r == GenerateTokens(d.constant)
  {
    var e := GenerateTokens(a);
    match d
    case Skip => e
    case Mandatory => if e.Ok? && |e.value| == 0 then Err(MissingMandatory) else e
    case Default(x) => if e.Ok? && |e.value| == 0 then GenerateTokens(x) else e
  }

  /** The tokens of an entry transformed with a value: fill, then conform,
      then apply the name. The first step that fails decides the error. */
  function TransformEntry(n: Name, d: DefaultValue, a: Argument, v: Value): (r: Result<seq<string>>)
    ensures !Accepts(a, v) ==> r == Err(TypeMismatch)
    ensures r.Ok? ==> n.Blank?
    ensures Accepts(a, v) && n.Blank? ==> r == ConformTokens(d, FillArgument(a, v).value)
  {
    match FillArgument(a, v)
    case Err(e) => Err(e)
    case Ok(filled) =>
      (match ConformTokens(d, filled)
       case Err(e) => Err(e)
       case Ok(q) => ApplyName(n, q))
  }

  /** Whether a value stands for something, as opposed to an absent path. */
  predicate IsPresent(v: Value) {
    !(v.OptionalPathValue? && v.optPath.None?)
  }

  /** A filled entry never consults its policy: a present value gives its own
      token, so a filled `Mandatory` entry never reports a missing value. */
  lemma FilledIgnoresPolicy(d: DefaultValue, a: Argument, v: Value)
    requires Accepts(a, v) && IsPresent(v)
    ensures ConformTokens(d, FillArgument(a, v).value) == Ok(ValueTokens(v))
    ensures |ValueTokens(v)| == 1
  {
    FillThenGenerate(a, v);
  }

  /** An entry cleared with an absent path falls back on its policy. */
  lemma ClearedFallsBack(d: DefaultValue, a: Argument, v: Value)
    requires Accepts(a, v) && !IsPresent(v)
    ensures d.Skip? ==> ConformTokens(d, FillArgument(a, v).value) == Ok([])
    ensures d.Mandatory? ==> ConformTokens(d, FillArgument(a, v).value) == Err(MissingMandatory)
    ensures d.Default? ==> ConformTokens(d, FillArgument(a, v).value) == GenerateTokens(d.constant)
  {
    FillThenGenerate(a, v);
  }

  /** A flag entry cannot be transformed: it fails whatever its value, and
      with an unsupported name whenever fill and conform succeed, which they
      always do for a present value. */
  lemma FlagEntriesFail(n: Name, d: DefaultValue, a: Argument, v: Value)
    requires !n.Blank?
    ensures TransformEntry(n, d, a, v).Err?
    ensures Accepts(a, v) && ConformTokens(d, FillArgument(a, v).value).Ok? ==>
              TransformEntry(n, d, a, v) == Err(UnsupportedName)
    ensures Accepts(a, v) && IsPresent(v) ==> TransformEntry(n, d, a, v) == Err(UnsupportedName)
  {
    if Accepts(a, v) && IsPresent(v) {
      FilledIgnoresPolicy(d, a, v);
    }
  }

  /** A positional entry transforms to its conformed tokens; filled with a
      present value, to exactly that value's token. */
  lemma PositionalTransform(n: Name, d: DefaultValue, a: Argument, v: Value)
    requires n.Blank? && Accepts(a, v)
    ensures TransformEntry(n, d, a, v) == ConformTokens(d, FillArgument(a, v).value)
    ensures IsPresent(v) ==> TransformEntry(n, d, a, v) == Ok(ValueTokens(v))
  {
    if IsPresent(v) {
      FilledIgnoresPolicy(d, a, v);
    }
  }

  /** Reading an entry from a descriptor string is not implemented: it fails
      for every descriptor. */
  function EntryFromDescriptor(descriptor: string): (r: Result<Entry>)
    ensures r == Err(Unparsable)
  {
    Err(Unparsable)
  }

  class Entry {
    var defaultsTo: DefaultValue
    var targetName: Name
    var targetType: Argument

    constructor (defaultsTo: DefaultValue, targetName: Name, targetType: Argument)
      ensures this.defaultsTo == defaultsTo
      ensures this.targetName == targetName
      ensures this.targetType == targetType
    {
      this.defaultsTo := defaultsTo;
      this.targetName := targetName;
      this.targetType := targetType;
    }

    /** Two entries are equal when their names are; undefined names fail. */
    function Equals(other: Entry): (r: Result<bool>)
      reads this, other
      ensures r.Err? <==> targetName.Undefined? || other.targetName.Undefined?
      ensures r.Ok? ==> (r.value <==> targetName == other.targetName)
    {
      NamesEqual(targetName, other.targetName)
    }

    /** Entries are ordered by name; undefined names fail. */
    function Compare(other: Entry): (r: Result<Ordering>)
      reads this, other
      ensures r == CompareNames(targetName, other.targetName)
    {
      CompareNames(targetName, other.targetName)
    }

    /** The tokens of the entry's argument, before any default is applied. */
    function Generate(): (r: Result<seq<string>>)
      reads this
      ensures r.Err? <==> IsCollection(targetType)
      ensures r.Ok? ==> |r.value| == if IsFilled(targetType) then 1 else 0
    {
      GenerateTokens(targetType)
    }

    /** Fills the argument in place. Its payload is replaced and its kind kept;
        a value its kind does not take leaves it untouched and fails. */
    method Fill(with: Value) returns (r: Result<()>)
      modifies this`targetType
      ensures r.Ok? <==> Accepts(old(targetType), with)
      ensures r.Ok? ==> targetType == FillArgument(old(targetType), with).value
      ensures r.Err? ==> r.error == TypeMismatch && targetType == old(targetType)
    {
      r := Ok(());
      match with
      case TextValue(s) =>
        if targetType.Text? {
          targetType := Text(Some(s));
        } else {
          r := Err(TypeMismatch);
        }
      case PathValue(p) =>
        if targetType.PathPattern? {
          targetType := PathPattern(Some(p));
        } else if targetType.Text? {
          targetType := Text(Some(PathDisplay(p)));
        } else {
          r := Err(TypeMismatch);
        }
      case BoolValue(b) =>
        if targetType.BooleanFlag? {
          targetType := BooleanFlag(Some(b));
        } else if targetType.Text? {
          targetType := Text(Some(BoolText(b)));
        } else {
          r := Err(TypeMismatch);
        }
      case OptionalPathValue(o) =>
        if targetType.PathPattern? {
          targetType := PathPattern(o);
        } else if targetType.Text? {
          targetType := Text(if o.Some? then Some(PathDisplay(o.value)) else None);
        } else {
          r := Err(TypeMismatch);
        }
    }

    /** The entry's tokens after its default policy is applied. A default is
        applied on a copy of the entry whose argument is replaced by the
        constant; the entry itself is left as it is. */
    method Conform() returns (r: Result<seq<string>>)
      ensures r == ConformTokens(defaultsTo, targetType)
    {
      var replacement := new Entry(defaultsTo, targetName, targetType);
      var e := Generate();
      match defaultsTo
      case Skip =>
        r := e;
      case Mandatory =>
        if e.Ok? && |e.value| == 0 {
          r := Err(MissingMandatory);
        } else {
          r := e;
        }
      case Default(x) =>
        if e.Ok? && |e.value| == 0 {
          replacement.targetType := x;
          r := replacement.Generate();
        } else {
          r := e;
        }
    }

    /** Fills the entry with a value, conforms it and applies its name. */
    method Transform(with: Value) returns (r: Result<seq<string>>)
      modifies this`targetType
      ensures r == TransformEntry(targetName, defaultsTo, old(targetType), with)
      ensures targetType == if Accepts(old(targetType), with)
                            then FillArgument(old(targetType), with).value
                            else old(targetType)
    {
      var f := Fill(with);
      if f.Err? {
        return Err(f.error);
      }
      var n := targetName;
      var q := Conform();
      if q.Err? {
        return Err(q.error);
      }
      r := ApplyName(n, q.value);
    }
  }
}
