/** Names: the role an entry plays on the target command line, how a name is
    rendered and parsed, and the order in which entries are laid out
    (positionals first, then short flags, then long flags). */
module Names {
  import opened Results

  /** Rust's `u8`, the type of a positional index. */
  newtype u8 = x: int | 0 <= x < 256

  datatype Name =
    | Short(flag: char)    // rendered as -<flag>
    | Long(word: string)   // rendered as --<word>
    | Blank(index: u8)     // positional; the index only orders blanks among themselves
    | Undefined            // an entry to skip

  /** The name an entry has when none is given. */
  const DefaultName: Name := Undefined

  datatype Ordering = Less | Equal | Greater

  function Flip(o: Ordering): Ordering {
    match o
    case Less => Greater
    case Equal => Equal
    case Greater => Less
  }

  // ---------------------------------------------------------------------------
  // Rendering

  /** The text of a name on the command line. An undefined name has none. */
  function Display(n: Name): (r: Result<string>)
    ensures r.Err? <==> n.Undefined?
    ensures r.Err? ==> r.error == UnsupportedName
    ensures n.Blank? ==> r == Ok("")
    ensures n.Short? ==> r == Ok("-" + [n.flag])
    ensures n.Long? ==> r == Ok("--" + n.word)
  {
    match n
    case Short(c) => Ok("-" + [c])
    case Long(s) => Ok("--" + s)
    case Blank(_) => Ok("")
    case Undefined => Err(UnsupportedName)
  }

  /** Applies a name to the tokens of its entry. Only positional names are
      supported: their tokens pass through unchanged. */
  function ApplyName(n: Name, tokens: seq<string>): (r: Result<seq<string>>)
    ensures n.Blank? ==> r == Ok(tokens)
    ensures !n.Blank? ==> r == Err(UnsupportedName)
  {
    match n
    case Blank(_) => Ok(tokens)
    case _ => Err(UnsupportedName)
  }

  // ---------------------------------------------------------------------------
  // Decimal numerals, as parsed by Rust's `str::parse::<u8>`

  predicate IsDigit(c: char) {
    '0' <= c <= '9'
  }

  predicate AllDigits(s: string) {
    forall k :: 0 <= k < |s| ==> IsDigit(s[k])
  }

  function DigitChar(d: nat): (c: char)
    requires d < 10
    ensures IsDigit(c) && c as int - '0' as int == d
  {
    (d + '0' as int) as char
  }

  /** The value of a string of decimal digits, most significant first. */
  function DigitsValue(s: string): nat
    requires AllDigits(s)
  {
    if s == [] then 0
    else DigitsValue(s[..|s| - 1]) * 10 + (s[|s| - 1] as int - '0' as int)
  }

  /** The shortest decimal numeral of `n`. */
  function Decimal(n: nat): (s: string)
    ensures 1 <= |s| && AllDigits(s)
  {
    if n < 10 then [DigitChar(n)] else Decimal(n / 10) + [DigitChar(n % 10)]
  }

  lemma {:induction false} DecimalValue(n: nat)
    ensures DigitsValue(Decimal(n)) == n
  {
    if n >= 10 {
      DecimalValue(n / 10);
      var s := Decimal(n);
      assert s[..|s| - 1] == Decimal(n / 10);
    }
  }

  /** Rust's `u8::from_str`: an optional `+`, then one or more ASCII digits
      whose value is at most 255 (leading zeros are allowed). */
  function ParseU8(s: string): (r: Result<u8>)
    ensures r.Err? ==> r.error == MalformedName
    ensures |s| == 0 || s == "+" ==> r.Err?
    ensures 1 <= |s| && AllDigits(s) ==> (r.Ok? <==> DigitsValue(s) <= 255)
    ensures 1 <= |s| && AllDigits(s) && DigitsValue(s) <= 255 ==> r == Ok(DigitsValue(s) as u8)
    ensures 1 <= |s| && !IsDigit(s[0]) && s[0] != '+' ==> r.Err?
  {
    var digits := if 1 <= |s| && s[0] == '+' then s[1..] else s;
    if |digits| == 0 || !AllDigits(digits) then Err(MalformedName)
    else if DigitsValue(digits) > 255 then Err(MalformedName)
    else Ok(DigitsValue(digits) as u8)
  }

  /** The decimal numeral of an index parses back to that index, with or
      without a leading `+`. */
  lemma ParseDecimal(i: u8)
    ensures ParseU8(Decimal(i as nat)) == Ok(i)
    ensures ParseU8("+" + Decimal(i as nat)) == Ok(i)
  {
    DecimalValue(i as nat);
    assert ("+" + Decimal(i as nat))[1..] == Decimal(i as nat);
  }

  // ---------------------------------------------------------------------------
  // Parsing a name from a captured fragment of an entry descriptor

  /** The three shapes of name in an entry descriptor: `#<index>`, `-<char>`
      and `--<word>`. */
  datatype NameGroup = BlankGroup | ShortGroup | LongGroup

  function GroupOf(n: Name): NameGroup
    requires !n.Undefined?
  {
    match n
    case Blank(_) => BlankGroup
    case Short(_) => ShortGroup
    case Long(_) => LongGroup
  }

  /** The descriptor fragment that spells a name. */
  function Fragment(n: Name): string
    requires !n.Undefined?
  {
    match n
    case Blank(i) => "#" + Decimal(i as nat)
    case Short(c) => "-" + [c]
    case Long(w) => "--" + w
  }

  /** Reads a name of the given shape from a fragment. The leading marker
      characters are dropped without being looked at: one for a blank index,
      two for a long word, and a short flag is the second character. A fragment
      too short for that, or an index that is not a `u8`, is an error. */
  function NameFromFragment(s: string, g: NameGroup): (r: Result<Name>)
    ensures r.Ok? ==> !r.value.Undefined? && GroupOf(r.value) == g
    ensures g.ShortGroup? ==> (r.Ok? <==> 2 <= |s|)
    ensures g.LongGroup? ==> (r.Ok? <==> 2 <= |s|)
    ensures r.Ok? && g.LongGroup? ==> s == s[..2] + r.value.word
    ensures r.Ok? && g.ShortGroup? ==> r.value.flag == s[1]
    ensures g.BlankGroup? ==> (r.Ok? <==> 1 <= |s| && ParseU8(s[1..]).Ok?)
    ensures r.Ok? && g.BlankGroup? ==> r.value.index == ParseU8(s[1..]).value
  {
    match g
    case BlankGroup =>
      if |s| < 1 then Err(MalformedName)
      else (match ParseU8(s[1..])
            case Ok(i) => Ok(Blank(i))
            case Err(e) => Err(e))
    case ShortGroup => if |s| < 2 then Err(MalformedName) else Ok(Short(s[1]))
    case LongGroup => if |s| < 2 then Err(MalformedName) else Ok(Long(s[2..]))
  }

  /** Tags of the descriptor's default-policy groups, which the parser below
      dispatches on. */
  function DefaultGroupTag(g: NameGroup): string {
    match g
    case BlankGroup => "d1"
    case ShortGroup => "d2"
    case LongGroup => "d3"
  }

  /** Tags of the descriptor's name groups. */
  function NameGroupTag(g: NameGroup): string {
    match g
    case BlankGroup => "n1"
    case ShortGroup => "n2"
    case LongGroup => "n3"
  }

  /** The name parser as written: it dispatches on the tags `d1`, `d2`, `d3`. */
  function NameFromTagged(s: string, tag: string): (r: Result<Name>)
    ensures tag != "d1" && tag != "d2" && tag != "d3" ==> r == Err(UnknownTag)
    ensures r.Ok? ==> !r.value.Undefined? && tag == DefaultGroupTag(GroupOf(r.value))
  {
    if tag == "d1" then NameFromFragment(s, BlankGroup)
    else if tag == "d2" then NameFromFragment(s, ShortGroup)
    else if tag == "d3" then NameFromFragment(s, LongGroup)
    else Err(UnknownTag)
  }

  /** The name parser dispatching on the tags of the descriptor's name groups,
      `n1`, `n2`, `n3`, whose captures have the shapes its arms read. */
  function NameFromCapture(s: string, tag: string): (r: Result<Name>)
    ensures tag != "n1" && tag != "n2" && tag != "n3" ==> r == Err(UnknownTag)
    ensures r.Ok? ==> !r.value.Undefined? && tag == NameGroupTag(GroupOf(r.value))
  {
    if tag == "n1" then NameFromFragment(s, BlankGroup)
    else if tag == "n2" then NameFromFragment(s, ShortGroup)
    else if tag == "n3" then NameFromFragment(s, LongGroup)
    else Err(UnknownTag)
  }

  /** Every name is read back from the fragment that spells it. */
  lemma FragmentRoundTrip(n: Name)
    requires !n.Undefined?
    ensures NameFromFragment(Fragment(n), GroupOf(n)) == Ok(n)
  {
    match n
    case Blank(i) =>
      ParseDecimal(i);
      assert Fragment(n)[1..] == Decimal(i as nat);
    case Short(c) =>
    case Long(w) =>
      assert Fragment(n)[2..] == w;
  }

  /** As written: `#n` under tag `d1` gives `Blank(n)`, `-c` under `d2` gives
      `Short(c)`, `--s` under `d3` gives `Long(s)`. */
  lemma TaggedRoundTrip(n: Name)
    requires !n.Undefined?
    ensures NameFromTagged(Fragment(n), DefaultGroupTag(GroupOf(n))) == Ok(n)
  {
    FragmentRoundTrip(n);
  }

  /** Flag names parse back from their own rendering. */
  lemma DisplayRoundTrip(n: Name)
    requires n.Short? || n.Long?
    ensures Display(n) == Ok(Fragment(n))
    ensures NameFromTagged(Display(n).value, DefaultGroupTag(GroupOf(n))) == Ok(n)
    ensures NameFromCapture(Display(n).value, NameGroupTag(GroupOf(n))) == Ok(n)
  {
    FragmentRoundTrip(n);
  }

  /** As written, a capture of a name group is never read: whatever it holds,
      its tag is unknown to the parser. For the descriptor `#0!{pattern}[str]`
      the name group captures `#0`, which is refused, and the default group
      `d1` captures `!`, which has no index after its first character. */
  lemma TaggedMissesNameGroups(s: string, g: NameGroup)
    ensures NameFromTagged(s, NameGroupTag(g)) == Err(UnknownTag)
    ensures NameFromTagged("#0", "n1") == Err(UnknownTag)
    ensures NameFromTagged("!", "d1") == Err(MalformedName)
  {
  }

  /** Corrected: every name is read back from its fragment under the tag of
      the name group that captures it. */
  lemma CaptureRoundTrip(n: Name)
    requires !n.Undefined?
    ensures NameFromCapture(Fragment(n), NameGroupTag(GroupOf(n))) == Ok(n)
  {
    FragmentRoundTrip(n);
  }

  // ---------------------------------------------------------------------------
  // Equality and order of entries, which look at the entries' names only

  /** Lexicographic order of strings. Rust orders `String`s by their UTF-8
      bytes, which orders them as this does by code point. */
  function LexCompare(s: string, t: string): (r: Ordering)
    ensures |s| < |t| && s == t[..|s|] ==> r == Less
    ensures |t| < |s| && t == s[..|t|] ==> r == Greater
  {
    if s == [] then (if t == [] then Equal else Less)
    else if t == [] then Greater
    else if s[0] < t[0] then Less
    else if s[0] > t[0] then Greater
    else
      assert |s| <= |t| ==> t[..|s|][1..] == t[1..][..|s| - 1];
      assert |t| <= |s| ==> s[..|t|][1..] == s[1..][..|t| - 1];
      LexCompare(s[1..], t[1..])
  }

  /** At the first position where two strings differ, the smaller character
      decides. */
  lemma {:induction false} LexFirstDifference(s: string, t: string, k: nat)
    requires k < |s| && k < |t| && s[..k] == t[..k] && s[k] != t[k]
    ensures LexCompare(s, t) == if s[k] < t[k] then Less else Greater
  {
    if k > 0 {
      assert s[0] == s[..k][0] && t[0] == t[..k][0];
      assert s[1..][..k - 1] == s[..k][1..] && t[1..][..k - 1] == t[..k][1..];
      LexFirstDifference(s[1..], t[1..], k - 1);
    }
  }

  function CompareInts(i: int, j: int): Ordering {
    if i < j then Less else if i == j then Equal else Greater
  }

  /** Position of a kind of name in the command line: blanks, shorts, longs. */
  function Rank(n: Name): nat {
    match n
    case Blank(_) => 0
    case Short(_) => 1
    case Long(_) => 2
    case Undefined => 3
  }

  /** Equality of two entries by name. Comparing an undefined name is an error. */
  function NamesEqual(a: Name, b: Name): (r: Result<bool>)
    ensures r.Err? <==> a.Undefined? || b.Undefined?
    ensures r.Err? ==> r.error == InvalidEntry
    ensures r.Ok? ==> (r.value <==> a == b)
  {
    match a
    case Blank(i) =>
      (match b
       case Blank(j) => Ok(i == j)
       case Long(_) => Ok(false)
       case Short(_) => Ok(false)
       case Undefined => Err(InvalidEntry))
    case Long(s) =>
      (match b
       case Blank(_) => Ok(false)
       case Long(t) => Ok(s == t)
       case Short(_) => Ok(false)
       case Undefined => Err(InvalidEntry))
    case Short(c) =>
      (match b
       case Blank(_) => Ok(false)
       case Long(_) => Ok(false)
       case Short(d) => Ok(c == d)
       case Undefined => Err(InvalidEntry))
    case Undefined => Err(InvalidEntry)
  }

  /** Order of two entries by name: blanks by index, then shorts by character,
      then longs lexicographically. Comparing an undefined name is an error. */
  function CompareNames(a: Name, b: Name): (r: Result<Ordering>)
    ensures r.Err? <==> a.Undefined? || b.Undefined?
    ensures r.Err? ==> r.error == InvalidEntry
    ensures r.Ok? && Rank(a) < Rank(b) ==> r.value == Less
    ensures r.Ok? && Rank(a) > Rank(b) ==> r.value == Greater
    ensures a.Blank? && b.Blank? ==> (r == Ok(Less) <==> a.index < b.index)
    ensures a.Short? && b.Short? ==> (r == Ok(Less) <==> a.flag < b.flag)
    ensures a.Long? && b.Long? ==> r == Ok(LexCompare(a.word, b.word))
  {
    match a
    case Blank(i) =>
      (match b
       case Blank(j) => Ok(CompareInts(i as int, j as int))
       case Long(_) => Ok(Less)
       case Short(_) => Ok(Less)
       case Undefined => Err(InvalidEntry))
    case Long(s) =>
      (match b
       case Blank(_) => Ok(Greater)
       case Long(t) => Ok(LexCompare(s, t))
       case Short(_) => Ok(Greater)
       case Undefined => Err(InvalidEntry))
    case Short(c) =>
      (match b
       case Blank(_) => Ok(Greater)
       case Long(_) => Ok(Less)
       case Short(d) => Ok(CompareInts(c as int, d as int))
       case Undefined => Err(InvalidEntry))
    case Undefined => Err(InvalidEntry)
  }

  lemma {:induction false} LexCompareFlip(s: string, t: string)
    ensures LexCompare(t, s) == Flip(LexCompare(s, t))
  {
    if s != [] && t != [] && s[0] == t[0] {
      LexCompareFlip(s[1..], t[1..]);
    }
  }

  lemma {:induction false} LexCompareEqual(s: string, t: string)
    ensures LexCompare(s, t) == Equal <==> s == t
  {
    if s != [] && t != [] {
      if s[0] == t[0] {
        LexCompareEqual(s[1..], t[1..]);
        if s[1..] == t[1..] {
          assert s == [s[0]] + s[1..] && t == [t[0]] + t[1..];
        }
      }
    }
  }

  lemma {:induction false} LexCompareTransitive(s: string, t: string, u: string)
    requires LexCompare(s, t) == Less && LexCompare(t, u) == Less
    ensures LexCompare(s, u) == Less
  {
    if s != [] && t != [] && u != [] && s[0] == t[0] && t[0] == u[0] {
      LexCompareTransitive(s[1..], t[1..], u[1..]);
    }
  }

  /** Swapping the operands flips the outcome. */
  lemma CompareAntisymmetric(a: Name, b: Name)
    requires !a.Undefined? && !b.Undefined?
    ensures CompareNames(b, a) == Ok(Flip(CompareNames(a, b).value))
  {
    if a.Long? && b.Long? {
      LexCompareFlip(a.word, b.word);
    }
  }

  lemma CompareTransitive(a: Name, b: Name, c: Name)
    requires CompareNames(a, b) == Ok(Less) && CompareNames(b, c) == Ok(Less)
    ensures CompareNames(a, c) == Ok(Less)
  {
    if a.Long? && b.Long? && c.Long? {
      LexCompareTransitive(a.word, b.word, c.word);
    }
  }

  /** The order says `Equal` exactly when equality says the names are equal;
      so it is irreflexive as a strict order and total on defined names. */
  lemma CompareAgreesWithEquality(a: Name, b: Name)
    requires !a.Undefined? && !b.Undefined?
    ensures CompareNames(a, b) == Ok(Equal) <==> NamesEqual(a, b) == Ok(true)
    ensures CompareNames(a, b) == Ok(Equal) <==> a == b
  {
    if a.Long? && b.Long? {
      LexCompareEqual(a.word, b.word);
    }
  }

  // ---------------------------------------------------------------------------
  // Sequences of names in entry order

  /** Every name comes strictly before every later one. */
  ghost predicate StrictlySorted(ns: seq<Name>) {
    forall i, j :: 0 <= i < j < |ns| ==> CompareNames(ns[i], ns[j]) == Ok(Less)
  }

  /** Every name comes strictly before its successor. */
  predicate AdjacentSorted(ns: seq<Name>) {
    forall i :: 0 <= i < |ns| - 1 ==> CompareNames(ns[i], ns[i + 1]) == Ok(Less)
  }

  /** Checking neighbours is enough: the order is transitive. */
  lemma {:induction false} AdjacentSortedIsSorted(ns: seq<Name>)
    requires AdjacentSorted(ns)
    ensures StrictlySorted(ns)
  {
    forall i, j | 0 <= i < j < |ns|
      ensures CompareNames(ns[i], ns[j]) == Ok(Less)
    {
      AdjacentChain(ns, i, j);
    }
  }

  lemma {:induction false} AdjacentChain(ns: seq<Name>, i: nat, j: nat)
    requires AdjacentSorted(ns)
    requires i < j < |ns|
    ensures CompareNames(ns[i], ns[j]) == Ok(Less)
    decreases j - i
  {
    if i + 1 < j {
      AdjacentChain(ns, i, j - 1);
      CompareTransitive(ns[i], ns[j - 1], ns[j]);
    }
  }

  /** In entry order, every positional comes before every flag, and every
      short flag before every long flag. */
  lemma PositionalsFirst(ns: seq<Name>, i: nat, j: nat)
    requires StrictlySorted(ns)
    requires i < j < |ns|
    ensures Rank(ns[i]) <= Rank(ns[j])
  {
    assert CompareNames(ns[i], ns[j]) == Ok(Less);
  }

  /** A sorted sequence of names has no two equal names. */
  lemma SortedIsDuplicateFree(ns: seq<Name>, i: nat, j: nat)
    requires StrictlySorted(ns)
    requires i < j < |ns|
    ensures NamesEqual(ns[i], ns[j]) == Ok(false)
  {
    CompareAgreesWithEquality(ns[i], ns[j]);
  }
}
