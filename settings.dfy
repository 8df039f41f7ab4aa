/**
 * System settings and contribution categories (settings.service.js): the keyed
 * configuration lookup, the two ways callers turn a stored string into a number with a
 * default, the contribution-category code normalisation, and the category table updates.
 */
module Settings {
  import opened Wrappers
  import opened Sums
  import opened Text
  import opened Db

  // ---------------------------------------------------------------------------
  // parseFloat: leading white space, an optional sign, digits with an optional
  // fraction. The longest such prefix is read; no digit at all gives NaN (None).
  // ---------------------------------------------------------------------------

  function DropSpaces(s: string): (r: string)
    ensures |r| <= |s| && r == s[|s| - |r|..]
    ensures |r| > 0 ==> !IsSpace(r[0])
    ensures |s| > 0 && IsSpace(s[0]) ==> |r| < |s|
    ensures (forall i :: 0 <= i < |s| ==> IsSpace(s[i])) ==> r == []
    ensures forall i :: 0 <= i < |s| - |r| ==> IsSpace(s[i])
    decreases |s|
  {
    if |s| > 0 && IsSpace(s[0]) then
      var t := DropSpaces(s[1..]);
      assert forall i :: 1 <= i < |s| - |t| ==> s[i] == s[1..][i - 1];
      t
    else s
  }

  function LeadingDigits(s: string): (r: string)
    ensures |r| <= |s| && r == s[..|r|]
    ensures forall i :: 0 <= i < |r| ==> IsDigit(r[i])
    ensures |r| < |s| ==> !IsDigit(s[|r|])
    decreases |s|
  {
    if |s| > 0 && IsDigit(s[0]) then [s[0]] + LeadingDigits(s[1..]) else []
  }

  function Pow10(n: nat): (p: nat)
    ensures p >= 1
  {
    if n == 0 then 1 else 10 * Pow10(n - 1)
  }

  /** The number an unsigned decimal spells out: digits, then an optional `.` and digits. */
  function ParseUnsigned(u: string): Option<real> {
    var whole := LeadingDigits(u);
    var rest := u[|whole|..];
    var frac := if |rest| > 0 && rest[0] == '.' then LeadingDigits(rest[1..]) else [];
    if |whole| == 0 && |frac| == 0 then None
    else Some(DigitsValue(whole) as real + (DigitsValue(frac) as real) / (Pow10(|frac|) as real))
  }

  function Negate(r: Option<real>): Option<real> {
    match r
    case None => None
    case Some(x) => Some(-x)
  }

  /** JavaScript `parseFloat(s)`; None stands for NaN. */
  function ParseFloat(s: string): Option<real> {
    var t := DropSpaces(s);
    if |t| > 0 && t[0] == '-' then Negate(ParseUnsigned(t[1..]))
    else if |t| > 0 && t[0] == '+' then ParseUnsigned(t[1..])
    else ParseUnsigned(t)
  }

  /** A string of digits is read whole by LeadingDigits. */
  lemma {:induction false} LeadingDigitsAll(s: string)
    requires forall i :: 0 <= i < |s| ==> IsDigit(s[i])
    ensures LeadingDigits(s) == s
    decreases |s|
  {
    if |s| > 0 {
      LeadingDigitsAll(s[1..]);
    }
  }

  lemma LeadingDigitsNone(s: string)
    requires |s| > 0 ==> !IsDigit(s[0])
    ensures LeadingDigits(s) == []
  {
  }

  /** A number written out in decimal parses back to itself. */
  lemma ParseFloatNat(n: nat)
    ensures ParseFloat(NatToString(n)) == Some(n as real)
  {
    var s := NatToString(n);
    assert !IsSpace(s[0]) && s[0] != '-' && s[0] != '+';
    assert DropSpaces(s) == s;
    LeadingDigitsAll(s);
    assert s[|s|..] == [];
    NatToStringRoundTrip(n);
    assert ParseUnsigned(s) == Some(n as real + (DigitsValue([]) as real) / (Pow10(0) as real));
  }

  /** Without a digit there is no unsigned number. */
  lemma ParseUnsignedNoDigit(u: string)
    requires forall i :: 0 <= i < |u| ==> !IsDigit(u[i])
    ensures ParseUnsigned(u).None?
  {
    LeadingDigitsNone(u);
    assert u[0..] == u;
    if |u| > 1 {
      LeadingDigitsNone(u[1..]);
    }
  }

  /** A string without a digit parses to NaN. */
  lemma ParseFloatNoDigit(s: string)
    requires forall i :: 0 <= i < |s| ==> !IsDigit(s[i])
    ensures ParseFloat(s).None?
  {
    var t := DropSpaces(s);
    assert forall i :: 0 <= i < |t| ==> t[i] == s[|s| - |t| + i];
    if |t| > 0 && (t[0] == '-' || t[0] == '+') {
      ParseUnsignedNoDigit(t[1..]);
    } else {
      ParseUnsignedNoDigit(t);
    }
  }

  // ---------------------------------------------------------------------------
  // Numeric settings with a default.
  // ---------------------------------------------------------------------------

  /** `parseFloat(v) || d`: a missing value, NaN and 0 all give the default. */
  function NumberOr(v: Option<string>, d: real): (r: real)
    ensures r == d || (v.Some? && ParseFloat(v.value) == Some(r) && r != 0.0)
    ensures v.Some? && ParseFloat(v.value).Some? && ParseFloat(v.value).value != 0.0 ==> r == ParseFloat(v.value).value
    ensures v.None? || ParseFloat(v.value).None? || ParseFloat(v.value) == Some(0.0) ==> r == d
  {
    if v.None? then d
    else match ParseFloat(v.value)
      case None => d
      case Some(x) => if x == 0.0 then d else x
  }

  /** `parseFloat(v || d)`: only a missing or empty value gives the default; None is NaN. */
  function NumberOrIfEmpty(v: Option<string>, d: real): (r: Option<real>)
    ensures !Truthy(v) ==> r == Some(d)
    ensures Truthy(v) ==> r == ParseFloat(v.value)
  {
    if Truthy(v) then ParseFloat(v.value) else Some(d)
  }

  /** The first rule never yields 0 from a stored number, the second keeps a stored "0":
      with `loan_multiplier` = "0" the limit stays 3x, with `loan_interest_rate` = "0" the rate is 0%. */
  lemma StoredZero(d: real)
    requires d != 0.0
    ensures NumberOr(Some("0"), d) == d
    ensures NumberOrIfEmpty(Some("0"), d) == Some(0.0)
    ensures NumberOr(None, d) == d && NumberOrIfEmpty(None, d) == Some(d)
    ensures NumberOrIfEmpty(Some(""), d) == Some(d)
  {
    ParseFloatNat(0);
    assert NatToString(0) == "0";
  }

  /** A stored positive whole number is used as it is by both rules. */
  lemma StoredNumber(n: nat, d: real)
    requires n > 0
    ensures NumberOr(Some(NatToString(n)), d) == n as real
    ensures NumberOrIfEmpty(Some(NatToString(n)), d) == Some(n as real)
  {
    ParseFloatNat(n);
  }

  /** A non-numeric stored value falls back under the first rule and is NaN under the second. */
  lemma StoredText(s: string, d: real)
    requires s != [] && forall i :: 0 <= i < |s| ==> !IsDigit(s[i])
    ensures NumberOr(Some(s), d) == d
    ensures NumberOrIfEmpty(Some(s), d) == None
  {
    ParseFloatNoDigit(s);
  }

  // ---------------------------------------------------------------------------
  // getSetting / updateSetting
  // ---------------------------------------------------------------------------

  function KeyIs(key: string): Setting -> bool { (s: Setting) => s.key == key }

  /** `getSetting(key)`: the stored value of the first row with that key, or null. */
  function GetSetting(settings: seq<Setting>, key: string): (r: Option<string>)
    ensures (forall i :: 0 <= i < |settings| ==> settings[i].key != key) ==> r.None?
    ensures r.Some? ==> exists i :: 0 <= i < |settings| && settings[i].key == key && settings[i].value == r
    ensures forall i :: 0 <= i < |settings| && settings[i].key == key && (forall j :: 0 <= j < i ==> settings[j].key != key)
                        ==> r == settings[i].value
  {
    match FirstWhere(settings, KeyIs(key))
    case None => None
    case Some(i) => settings[i].value
  }

  function WithValue(value: Option<string>): Setting -> Setting { (s: Setting) => s.(value := value) }

  /** `updateSetting(key, value)`: an UPDATE, so a key with no row stays absent. */
  method UpdateSetting(db: Database, key: string, value: Option<string>)
    modifies db`settings
    ensures db.settings == UpdateWhere(old(db.settings), KeyIs(key), WithValue(value))
  {
    db.settings := UpdateWhere(db.settings, KeyIs(key), WithValue(value));
  }

  /** Two tables whose rows agree on `p` have the same first row satisfying it. */
  lemma FirstWhereSame<T>(xs: seq<T>, ys: seq<T>, p: T -> bool)
    requires |xs| == |ys|
    requires forall i :: 0 <= i < |xs| ==> (p(xs[i]) <==> p(ys[i]))
    ensures FirstWhere(xs, p) == FirstWhere(ys, p)
  {
    match FirstWhere(xs, p)
    case None =>
    case Some(i) =>
      assert FirstWhere(ys, p).Some?;
      var j := FirstWhere(ys, p).value;
      assert !(i < j) && !(j < i);
  }

  /** After an update the key reads back the new value if it had a row and null if it had none;
      no row is created and no key changes. */
  lemma UpdateSettingReadsBack(settings: seq<Setting>, key: string, value: Option<string>)
    ensures var s' := UpdateWhere(settings, KeyIs(key), WithValue(value));
      && |s'| == |settings|
      && (forall i :: 0 <= i < |s'| ==> s'[i].key == settings[i].key)
      && GetSetting(s', key) == (if exists i :: 0 <= i < |settings| && settings[i].key == key then value else None)
  {
    var s' := UpdateWhere(settings, KeyIs(key), WithValue(value));
    FirstWhereSame(s', settings, KeyIs(key));
  }

  /** An update leaves every other key reading as before. */
  lemma UpdateSettingKeepsOthers(settings: seq<Setting>, key: string, value: Option<string>, other: string)
    requires other != key
    ensures GetSetting(UpdateWhere(settings, KeyIs(key), WithValue(value)), other) == GetSetting(settings, other)
  {
    var s' := UpdateWhere(settings, KeyIs(key), WithValue(value));
    FirstWhereSame(s', settings, KeyIs(other));
  }

  // ---------------------------------------------------------------------------
  // Contribution categories
  // ---------------------------------------------------------------------------

  /** `s.replace(/\s+/g, '_')`: every maximal run of white space becomes one underscore. */
  function ReplaceSpaceRuns(s: string): (r: string)
    ensures forall i :: 0 <= i < |r| ==> !IsSpace(r[i])
    ensures |r| <= |s|
    ensures |r| == 0 <==> |s| == 0
    ensures |s| > 0 ==> r[0] == if IsSpace(s[0]) then '_' else s[0]
    decreases |s|
  {
    if |s| == 0 then []
    else if IsSpace(s[0]) then "_" + ReplaceSpaceRuns(DropSpaces(s))
    else [s[0]] + ReplaceSpaceRuns(s[1..])
  }

  /** The stored code of a category: `name.toUpperCase().replace(/\s+/g, '_')`. */
  function CategoryCode(name: string): (code: string)
    ensures |code| <= |name|
    ensures forall i :: 0 <= i < |code| ==> !IsSpace(code[i]) && !('a' <= code[i] <= 'z')
    ensures |code| == 0 <==> |name| == 0
    ensures (forall i :: 0 <= i < |name| ==> !IsSpace(name[i])) ==> code == ToUpper(name)
  {
    ReplaceKeepsUpper(ToUpper(name));
    UpperKeepsSpaces(name);
    ReplaceSpaceRunsNoSpace(ToUpper(name));
    ReplaceSpaceRuns(ToUpper(name))
  }

  /** A stretch without white space is copied as it is. */
  lemma {:induction false} ReplaceKeepsWord(a: string, b: string)
    requires forall i :: 0 <= i < |a| ==> !IsSpace(a[i])
    ensures ReplaceSpaceRuns(a + b) == a + ReplaceSpaceRuns(b)
    decreases |a|
  {
    if |a| > 0 {
      var ab := a + b;
      assert ab[0] == a[0] && !IsSpace(ab[0]);
      assert ab[1..] == a[1..] + b;
      assert ReplaceSpaceRuns(ab) == [a[0]] + ReplaceSpaceRuns(ab[1..]);
      ReplaceKeepsWord(a[1..], b);
      calc {
        ReplaceSpaceRuns(ab);
        [a[0]] + (a[1..] + ReplaceSpaceRuns(b));
        ([a[0]] + a[1..]) + ReplaceSpaceRuns(b);
        { assert [a[0]] + a[1..] == a; }
        a + ReplaceSpaceRuns(b);
      }
    } else {
      assert a + b == b;
    }
  }

  /** A maximal run of white space, whatever its length, becomes one underscore. */
  lemma ReplaceRun(w: string, b: string)
    requires |w| > 0 && forall i :: 0 <= i < |w| ==> IsSpace(w[i])
    requires |b| > 0 ==> !IsSpace(b[0])
    ensures ReplaceSpaceRuns(w + b) == "_" + ReplaceSpaceRuns(b)
  {
    DropRun(w, b);
  }

  lemma {:induction false} DropRun(w: string, b: string)
    requires forall i :: 0 <= i < |w| ==> IsSpace(w[i])
    requires |b| > 0 ==> !IsSpace(b[0])
    ensures DropSpaces(w + b) == b
    decreases |w|
  {
    if |w| > 0 {
      assert (w + b)[1..] == w[1..] + b;
      DropRun(w[1..], b);
    } else {
      assert w + b == b;
    }
  }

  /** Two words separated by any white space: `"school  fees"` is stored as `"SCHOOL_FEES"`. */
  lemma CategoryCodeWords(a: string, w: string, b: string)
    requires forall i :: 0 <= i < |a| ==> !IsSpace(a[i])
    requires forall i :: 0 <= i < |b| ==> !IsSpace(b[i])
    requires |w| > 0 && forall i :: 0 <= i < |w| ==> IsSpace(w[i])
    ensures CategoryCode(a + w + b) == ToUpper(a) + "_" + ToUpper(b)
  {
    var ua, uw, ub := ToUpper(a), ToUpper(w), ToUpper(b);
    assert ToUpper(a + w + b) == ua + (uw + ub);
    UpperKeepsSpaces(a);
    UpperKeepsSpaces(b);
    assert uw == w;
    calc {
      CategoryCode(a + w + b);
      ReplaceSpaceRuns(ua + (uw + ub));
      { ReplaceKeepsWord(ua, uw + ub); }
      ua + ReplaceSpaceRuns(uw + ub);
      { ReplaceRun(uw, ub); }
      ua + ("_" + ReplaceSpaceRuns(ub));
      { ReplaceSpaceRunsNoSpace(ub); }
      ua + ("_" + ub);
    }
  }

  /** Upper-casing changes only letters, never white space. */
  lemma UpperKeepsSpaces(s: string)
    ensures forall i :: 0 <= i < |s| ==> (IsSpace(ToUpper(s)[i]) <==> IsSpace(s[i]))
  {
  }

  /** A string without white space is left as it is by the replacement. */
  lemma {:induction false} ReplaceSpaceRunsNoSpace(s: string)
    ensures (forall i :: 0 <= i < |s| ==> !IsSpace(s[i])) ==> ReplaceSpaceRuns(s) == s
    decreases |s|
  {
    if |s| > 0 {
      ReplaceSpaceRunsNoSpace(s[1..]);
      assert (forall i :: 0 <= i < |s| ==> !IsSpace(s[i])) ==> forall i :: 0 <= i < |s[1..]| ==> !IsSpace(s[1..][i]);
    }
  }

  /** Upper-casing preserves the absence of lower-case letters. */
  lemma {:induction false} ReplaceKeepsUpper(s: string)
    requires forall i :: 0 <= i < |s| ==> !('a' <= s[i] <= 'z')
    ensures forall i :: 0 <= i < |ReplaceSpaceRuns(s)| ==> !('a' <= ReplaceSpaceRuns(s)[i] <= 'z')
    decreases |s|
  {
    if |s| > 0 {
      if IsSpace(s[0]) {
        var t := DropSpaces(s);
        assert t == s[|s| - |t|..];
        ReplaceKeepsUpper(t);
      } else {
        ReplaceKeepsUpper(s[1..]);
      }
    }
  }

  /** Normalising a code again changes nothing. */
  lemma CategoryCodeIdempotent(name: string)
    ensures CategoryCode(CategoryCode(name)) == CategoryCode(name)
  {
    var c := CategoryCode(name);
    assert ToUpper(c) == c;
    ReplaceSpaceRunsNoSpace(c);
  }

  /** `createCategory(name, description, amount)`: the code as name, `description || name`, `amount || 0`. */
  method CreateCategory(db: Database, name: string, description: Option<string>, amount: Option<real>)
    modifies db`categories
    ensures db.categories == old(db.categories) + [NewCategory(old(db.categories), name, description, amount)]
  {
    var code := CategoryCode(name);
    var id := MaxId(db.categories, CategoryKey) + 1;
    db.categories := db.categories + [Category(id, code, OrElse(description, name), if amount.Some? then amount.value else 0.0, true)];
  }

  /** The row createCategory inserts. */
  function NewCategory(cats: seq<Category>, name: string, description: Option<string>, amount: Option<real>): (c: Category)
    ensures c.name == CategoryCode(name) && c.isActive
    ensures c.description == (if Truthy(description) then description.value else name)
    ensures c.amount == (if amount.Some? then amount.value else 0.0)
    ensures forall i :: 0 <= i < |cats| ==> cats[i].id != c.id
  {
    Category(MaxId(cats, CategoryKey) + 1, CategoryCode(name), OrElse(description, name),
             if amount.Some? then amount.value else 0.0, true)
  }

  function CategoryIdIs(id: nat): Category -> bool { (c: Category) => c.id == id }
  function Deactivated(c: Category): Category { c.(isActive := false) }

  /** `deleteCategory(id)`: a soft delete, the row stays. */
  method DeleteCategory(db: Database, id: nat)
    modifies db`categories
    ensures db.categories == UpdateWhere(old(db.categories), CategoryIdIs(id), Deactivated)
  {
    db.categories := UpdateWhere(db.categories, CategoryIdIs(id), Deactivated);
  }

  /** Deleting keeps every row and every field but the active flag, and only that category's flag drops. */
  lemma DeleteCategoryEffect(cats: seq<Category>, id: nat)
    ensures var c' := UpdateWhere(cats, CategoryIdIs(id), Deactivated);
      && |c'| == |cats|
      && (forall i :: 0 <= i < |cats| ==> c'[i].(isActive := cats[i].isActive) == cats[i])
      && (forall i :: 0 <= i < |cats| ==> c'[i].isActive == (cats[i].isActive && cats[i].id != id))
  {
  }

  // Ordering by name: code-point lexicographic order.

  predicate NameLe(a: string, b: string)
    decreases |a|
  {
    |a| == 0 || (|b| > 0 && (a[0] < b[0] || (a[0] == b[0] && NameLe(a[1..], b[1..]))))
  }

  lemma {:induction false} NameLeTotal(a: string, b: string)
    ensures NameLe(a, b) || NameLe(b, a)
    decreases |a|
  {
    if |a| > 0 && |b| > 0 && a[0] == b[0] {
      NameLeTotal(a[1..], b[1..]);
    }
  }

  lemma {:induction false} NameLeTrans(a: string, b: string, c: string)
    requires NameLe(a, b) && NameLe(b, c)
    ensures NameLe(a, c)
    decreases |a|
  {
    if |a| > 0 && a[0] == b[0] && b[0] == c[0] {
      NameLeTrans(a[1..], b[1..], c[1..]);
    }
  }

  predicate SortedByName(cs: seq<Category>) {
    forall i :: 0 <= i < |cs| - 1 ==> NameLe(cs[i].name, cs[i + 1].name)
  }

  /** Adjacent order gives order between any two rows. */
  lemma {:induction false} SortedByNameAllPairs(cs: seq<Category>, i: nat, j: nat)
    requires SortedByName(cs) && i <= j < |cs|
    ensures NameLe(cs[i].name, cs[j].name)
    decreases j - i
  {
    if i == j {
      NameLeRefl(cs[i].name);
    } else {
      SortedByNameAllPairs(cs, i + 1, j);
      NameLeTrans(cs[i].name, cs[i + 1].name, cs[j].name);
    }
  }

  lemma {:induction false} NameLeRefl(a: string)
    ensures NameLe(a, a)
    decreases |a|
  {
    if |a| > 0 {
      NameLeRefl(a[1..]);
    }
  }

  function InsertByName(c: Category, cs: seq<Category>): (r: seq<Category>)
    requires SortedByName(cs)
    ensures SortedByName(r)
    ensures multiset(r) == multiset(cs) + multiset{c}
    ensures |r| == |cs| + 1
    ensures |cs| > 0 ==> r[0] == c || r[0] == cs[0]
    decreases |cs|
  {
    if |cs| == 0 then [c]
    else if NameLe(c.name, cs[0].name) then [c] + cs
    else
      NameLeTotal(c.name, cs[0].name);
      var tail := InsertByName(c, cs[1..]);
      assert cs == [cs[0]] + cs[1..];
      [cs[0]] + tail
  }

  function SortByName(cs: seq<Category>): (r: seq<Category>)
    ensures SortedByName(r)
    ensures multiset(r) == multiset(cs)
    decreases |cs|
  {
    if |cs| == 0 then []
    else
      assert cs == [cs[0]] + cs[1..];
      InsertByName(cs[0], SortByName(cs[1..]))
  }

  function IsActiveCategory(c: Category): bool { c.isActive }

  /** `getCategories()`: the active categories, ordered by name. */
  function GetCategories(cats: seq<Category>): (r: seq<Category>)
    ensures SortedByName(r)
    ensures multiset(r) == multiset(Filter(cats, IsActiveCategory))
    ensures forall c | c in r :: c in cats && c.isActive
    ensures forall c | c in cats && c.isActive :: c in r
  {
    var f := Filter(cats, IsActiveCategory);
    var r := SortByName(f);
    assert forall c :: c in r <==> c in multiset(r);
    assert forall c :: c in f <==> c in multiset(f);
    r
  }
}
