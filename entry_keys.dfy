/** The store keys the handler writes, `entry:<now>` (functions/posts.js line 11), and the
    timestamp it reads back from a listed key, `Number(name.split(':')[1])` (line 32). */
module EntryKeys {
  import opened Wrappers
  import opened Decimal

  const Separator: char := ':'
  const Prefix: string := "entry:"

  /** The key under which a POST at time `now` stores its body. */
  function EntryKey(now: nat): string {
    Prefix + Show(now)
  }

  /** `s.split(':')[0]`: the longest prefix of s without a separator. */
  function Field(s: string): (r: string)
    ensures |r| <= |s| && r == s[..|r|]
    ensures Separator !in r
    ensures |r| < |s| ==> s[|r|] == Separator
  {
    if s == [] || s[0] == Separator then [] else [s[0]] + Field(s[1..])
  }

  /** `name.split(':')[1]`, or None where JavaScript gives `undefined` (no separator). */
  function SecondField(name: string): (r: Option<string>)
    ensures r.None? <==> Separator !in name
  {
    if Separator !in name then None
    else
      var first := Field(name);
      Some(Field(name[|first| + 1..]))
  }

  /** The timestamp of a listed key, where its second field is a plain string of decimal
      digits; None for every other key (where `Number` gives NaN or some value read from
      whitespace, a sign, hexadecimal or exponent notation, none of which is modelled). */
  function TimestampOf(name: string): (r: Option<nat>)
  {
    match SecondField(name)
    case None => None
    case Some(field) => if IsDigits(field) then Some(ValueOf(field)) else None
  }

  /** The key is `entry:` followed by at least one decimal digit. */
  lemma EntryKeyShape(now: nat)
    ensures |EntryKey(now)| > |Prefix| && EntryKey(now)[..|Prefix|] == Prefix
    ensures IsDigits(EntryKey(now)[|Prefix|..])
  {
  }

  /** `Number` of the second field is read exactly when that field exists and is all digits,
      and then it is the field's decimal value. */
  lemma TimestampOfCases(name: string)
    ensures TimestampOf(name).Some? <==> Separator in name && IsDigits(SecondField(name).value)
    ensures TimestampOf(name).Some? ==> TimestampOf(name).value == ValueOf(SecondField(name).value)
  {
  }

  /** The second field of `a:b` is the first field of b, whatever b holds. */
  lemma SecondFieldOf(a: string, b: string)
    requires Separator !in a
    ensures SecondField(a + [Separator] + b) == Some(Field(b))
  {
    var name := a + [Separator] + b;
    assert name[|a|] == Separator;
    var first := Field(name);
    assert forall i :: 0 <= i < |a| ==> name[i] == a[i];
    assert name[|a| + 1..] == b;
  }

  /** A string without separators is its own first field. */
  lemma FieldOfPlain(s: string)
    requires Separator !in s
    ensures Field(s) == s
  {
  }

  /** For every key a POST creates, the GET branch reads back exactly the time of that POST. */
  lemma KeyRoundTrip(now: nat)
    ensures TimestampOf(EntryKey(now)) == Some(now)
  {
    var digits := Show(now);
    assert Prefix == "entry" + [Separator];
    assert EntryKey(now) == "entry" + [Separator] + digits;
    SecondFieldOf("entry", digits);
    assert forall i :: 0 <= i < |digits| ==> digits[i] != Separator;
    FieldOfPlain(digits);
    ValueOfShow(now);
  }

  /** Distinct POST times give distinct keys. */
  lemma EntryKeyInjective(t: nat, u: nat)
    ensures EntryKey(t) == EntryKey(u) <==> t == u
  {
    KeyRoundTrip(t);
    KeyRoundTrip(u);
  }
}
