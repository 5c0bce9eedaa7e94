/** The transaction editor of `src/html/transactions_screen.rs`, without the
    page: the clean-up of the amount input and the post date composed from
    the date and time inputs (`enter_transaction_on_click`), the description
    suggestions and the category options (`document_create_transaction_editor`),
    the category the selection loop picks, and the prefill of
    `load_last_transaction_for_account`. */
module TransactionEditor {
  import opened Wrappers
  import opened Text
  import opened Seqs
  import opened Guids
  import opened DateTimes
  import opened Register
  import AccountsTable

  // The amount input.

  /** The amount text once spaces, dollar signs and commas are removed and
      the rest is trimmed. */
  function SanitizeAmount(s: string): string
  {
    Trim(Remove(Remove(Remove(s, ' '), '$'), ','))
  }

  /** No space, dollar sign or comma, and no whitespace at either end. */
  predicate Sanitized(v: string)
  {
    && ' ' !in v && '$' !in v && ',' !in v
    && (v != [] ==> !IsWhitespace(v[0]) && !IsWhitespace(v[|v| - 1]))
  }

  /** The four rewrites of `#change_input`. */
  method SanitizeChangeInput(value: string) returns (v: string)
    ensures v == SanitizeAmount(value)
    ensures Sanitized(v)
    ensures forall x :: x in v ==> x in value
  {
    v := Remove(value, ' ');
    v := Remove(v, '$');
    v := Remove(v, ',');
    v := Trim(v);
  }

  lemma TrimOfTrimmed(v: string)
    requires v != [] ==> !IsWhitespace(v[0]) && !IsWhitespace(v[|v| - 1])
    ensures Trim(v) == v
  {
    assert TrimStart(v) == v;
    assert TrimEnd(v) == v;
  }

  /** Cleaning an amount twice is cleaning it once. */
  lemma SanitizeIdempotent(s: string)
    ensures SanitizeAmount(SanitizeAmount(s)) == SanitizeAmount(s)
  {
    var v := SanitizeAmount(s);
    assert ' ' !in v && '$' !in v && ',' !in v;
    RemoveAbsent(v, ' ');
    RemoveAbsent(v, '$');
    RemoveAbsent(v, ',');
    TrimOfTrimmed(v);
  }

  /** An amount that is already clean is left alone. */
  lemma SanitizeKeepsClean(s: string)
    requires Sanitized(s)
    ensures SanitizeAmount(s) == s
  {
    RemoveAbsent(s, ' ');
    RemoveAbsent(s, '$');
    RemoveAbsent(s, ',');
    TrimOfTrimmed(s);
  }

  // The post date.

  /** The date input without '-', followed by the time input without '-'
      and ':'. */
  function PostDateText(date: string, time: string): (t: string)
    ensures '-' !in t
  {
    Remove(date, '-') + Remove(Remove(time, '-'), ':')
  }

  const NotAValidTime: string := " doesn't make a valid time."

  /** The alerts raised while reading the post date, and the post date when
      it is accepted. */
  datatype PostDateEntry = PostDateEntry(alerts: seq<string>, postDate: Option<NaiveDateTime>)

  /** The post date of `enter_transaction_on_click`: the composed text is
      parsed; a failure is alerted and falls back to 0000-01-01, and a year
      below 1 is alerted and stops the entry. */
  function EnteredPostDate(date: string, time: string): (e: PostDateEntry)
    ensures var p := Parse(PostDateText(date, time));
      e.postDate.Some? <==> p.Some? && p.value.year >= 1
    ensures e.postDate.Some? ==> e.postDate == Parse(PostDateText(date, time)) && e.alerts == []
    ensures Parse(PostDateText(date, time)).None? ==>
      e.alerts == ["Failed to convert the given string '" + PostDateText(date, time) + "' to a date.",
                   PostDateText(date, time) + NotAValidTime]
    ensures Parse(PostDateText(date, time)).Some? && e.postDate.None? ==>
      e.alerts == [PostDateText(date, time) + NotAValidTime]
  {
    var text := PostDateText(date, time);
    var parsed := ConvertStringToDate(text);
    var alerts := if parsed.Ok? then [] else [parsed.message];
    var postDate := if parsed.Ok? then parsed.value else NullDate;
    if postDate.year < 1 then PostDateEntry(alerts + [text + NotAValidTime], None)
    else PostDateEntry(alerts, Some(postDate))
  }

  /** What the date input holds for a date: `%Y-%m-%d`. */
  function DateInputValue(d: NaiveDateTime): string
    requires 0 <= d.year <= 9999
  {
    Fixed(d.year, 4) + "-" + Fixed(d.month, 2) + "-" + Fixed(d.day, 2)
  }

  /** What the time input (step 1) holds for a time: `%H:%M:%S`. */
  function TimeInputValue(d: NaiveDateTime): string
  {
    Fixed(d.hour, 2) + ":" + Fixed(d.minute, 2) + ":" + Fixed(d.second, 2)
  }

  lemma RemoveFromDigits(s: string, c: char)
    requires AllDigits(s) && !IsDigit(c)
    ensures c !in s && Remove(s, c) == s
  {
    assert forall i :: 0 <= i < |s| ==> s[i] != c;
    RemoveAbsent(s, c);
  }

  lemma RemoveAround(p: string, q: string, sep: char)
    ensures Remove(p + [sep] + q, sep) == Remove(p, sep) + Remove(q, sep)
  {
    assert Remove([sep], sep) == [];
    RemoveConcat(p + [sep], q, sep);
    RemoveConcat(p, [sep], sep);
  }

  lemma RemoveSeparators(a: string, b: string, c: string, sep: char)
    requires AllDigits(a) && AllDigits(b) && AllDigits(c) && !IsDigit(sep)
    ensures Remove(a + [sep] + b + [sep] + c, sep) == a + b + c
  {
    RemoveFromDigits(a, sep);
    RemoveFromDigits(b, sep);
    RemoveFromDigits(c, sep);
    RemoveAround(a + [sep] + b, c, sep);
    RemoveAround(a, b, sep);
  }

  /** The inputs showing a date in the years 1 to 9999 give back exactly
      that date, with no alert. */
  lemma EnteredPostDateOfInputs(d: NaiveDateTime)
    requires 1 <= d.year <= 9999
    ensures EnteredPostDate(DateInputValue(d), TimeInputValue(d)) == PostDateEntry([], Some(d))
  {
    var y, mo, da := Fixed(d.year, 4), Fixed(d.month, 2), Fixed(d.day, 2);
    var h, mi, se := Fixed(d.hour, 2), Fixed(d.minute, 2), Fixed(d.second, 2);
    RemoveSeparators(y, mo, da, '-');
    assert DateInputValue(d) == y + ['-'] + mo + ['-'] + da;
    assert TimeInputValue(d) == h + [':'] + mi + [':'] + se;
    RemoveFromDigits(h, '-');
    RemoveFromDigits(mi, '-');
    RemoveFromDigits(se, '-');
    assert '-' !in TimeInputValue(d);
    RemoveAbsent(TimeInputValue(d), '-');
    RemoveSeparators(h, mi, se, ':');
    assert PostDateText(DateInputValue(d), TimeInputValue(d)) == y + (mo + (da + (h + (mi + se))));
    FormatFourDigitYear(d);
    ConvertRoundTrip(d);
  }

  // The description suggestions.

  /** The descriptions of the transactions, in order. */
  function Descriptions(txns: seq<TransactionWithSplitInformation>): (ds: seq<string>)
    ensures |ds| == |txns|
  {
    if txns == [] then [] else Descriptions(txns[..|txns| - 1]) + [txns[|txns| - 1].description]
  }

  /** The elements of `s`, each kept at its first occurrence. */
  function Dedup<T(==,!new)>(s: seq<T>): (r: seq<T>)
    ensures forall x :: x in r <==> x in s
  {
    if s == [] then []
    else
      var d := Dedup(s[..|s| - 1]);
      assert forall x :: x in s <==> x in s[..|s| - 1] || x == s[|s| - 1] by {
        assert s == s[..|s| - 1] + [s[|s| - 1]];
      }
      if s[|s| - 1] in d then d else d + [s[|s| - 1]]
  }

  /** The suggestions of the datalist: the descriptions, each pushed unless
      already there. */
  method DescriptionSuggestions(txns: seq<TransactionWithSplitInformation>) returns (options: seq<string>)
    ensures options == Dedup(Descriptions(txns))
  {
    options := [];
    for i := 0 to |txns|
      invariant options == Dedup(Descriptions(txns[..i]))
    {
      assert txns[..i + 1][..i] == txns[..i];
      var description := txns[i].description;
      if description !in options {
        options := options + [description];
      }
    }
    assert txns[..|txns|] == txns;
  }

  /** No suggestion appears twice. */
  lemma {:induction false} DedupDistinct<T(!new)>(s: seq<T>)
    ensures forall i, j :: 0 <= i < j < |Dedup(s)| ==> Dedup(s)[i] != Dedup(s)[j]
  {
    if s != [] {
      DedupDistinct(s[..|s| - 1]);
    }
  }

  /** The position of the first occurrence of `x`. */
  function FirstIndex<T(==)>(s: seq<T>, x: T): (k: nat)
    requires x in s
    ensures k < |s| && s[k] == x && forall j :: 0 <= j < k ==> s[j] != x
  {
    if s[0] == x then 0
    else
      assert x in s[1..] by { var i :| 0 <= i < |s| && s[i] == x; assert s[1..][i - 1] == x; }
      1 + FirstIndex(s[1..], x)
  }

  lemma FirstIndexOfPrefix<T>(a: seq<T>, y: T, x: T)
    requires x in a
    ensures FirstIndex(a + [y], x) == FirstIndex(a, x)
  {
    var k := FirstIndex(a, x);
    var m := FirstIndex(a + [y], x);
    assert (a + [y])[k] == x;
    assert forall j :: 0 <= j < k ==> (a + [y])[j] == a[j];
  }

  /** The suggestions are in the order of the descriptions' first
      occurrences. */
  lemma {:induction false} DedupFirstOccurrenceOrder<T(!new)>(s: seq<T>)
    ensures forall i, j :: 0 <= i < j < |Dedup(s)| ==> FirstIndex(s, Dedup(s)[i]) < FirstIndex(s, Dedup(s)[j])
  {
    if s != [] {
      var init, last := s[..|s| - 1], s[|s| - 1];
      assert s == init + [last];
      var d := Dedup(init);
      DedupFirstOccurrenceOrder(init);
      forall x | x in d
        ensures FirstIndex(s, x) == FirstIndex(init, x) < |init|
      {
        FirstIndexOfPrefix(init, last, x);
      }
      if last !in d {
        assert last !in init;
        assert FirstIndex(s, last) == |init|;
        forall i, j | 0 <= i < j < |Dedup(s)|
          ensures FirstIndex(s, Dedup(s)[i]) < FirstIndex(s, Dedup(s)[j])
        {
          assert Dedup(s)[i] == d[i] && Dedup(s)[i] in d;
          if j < |d| {
            assert Dedup(s)[j] == d[j] && Dedup(s)[j] in d;
          }
        }
      }
    }
  }

  // The category options.

  type Account = AccountsTable.Account

  predicate NameLe(a: Account, b: Account)
  {
    LexLe(a.name, b.name)
  }

  /** Ascending names. */
  predicate SortedByName(s: seq<Account>)
  {
    forall i, j :: 0 <= i < j < |s| ==> NameLe(s[i], s[j])
  }

  /** `a` placed before the first account whose name is not below its own. */
  function InsertByName(a: Account, s: seq<Account>): seq<Account>
  {
    if s == [] then [a]
    else if NameLe(a, s[0]) then [a] + s
    else [s[0]] + InsertByName(a, s[1..])
  }

  /** `accounts.sort_by(|a, b| a.name.cmp(&b.name))`, as an insertion sort. */
  function SortByName(s: seq<Account>): seq<Account>
  {
    if s == [] then [] else InsertByName(s[0], SortByName(s[1..]))
  }

  lemma {:induction false} InsertByNamePermutes(a: Account, s: seq<Account>)
    ensures multiset(InsertByName(a, s)) == multiset(s) + multiset{a}
  {
    if s != [] {
      assert s == [s[0]] + s[1..];
      if !NameLe(a, s[0]) {
        InsertByNamePermutes(a, s[1..]);
      }
    }
  }

  /** The sort rearranges the accounts: the same ones, as often. */
  lemma {:induction false} SortByNamePermutes(s: seq<Account>)
    ensures multiset(SortByName(s)) == multiset(s)
  {
    if s != [] {
      assert s == [s[0]] + s[1..];
      SortByNamePermutes(s[1..]);
      InsertByNamePermutes(s[0], SortByName(s[1..]));
    }
  }

  lemma {:induction false} InsertByNameSorted(a: Account, s: seq<Account>)
    requires SortedByName(s)
    ensures SortedByName(InsertByName(a, s))
  {
    if s != [] {
      if NameLe(a, s[0]) {
        forall j | 0 <= j < |s|
          ensures NameLe(a, s[j])
        {
          if j > 0 {
            LexLeTransitive(a.name, s[0].name, s[j].name);
          }
        }
        assert forall j :: 1 <= j < |s| + 1 ==> ([a] + s)[j] == s[j - 1];
      } else {
        var t := InsertByName(a, s[1..]);
        assert SortedByName(s[1..]) by {
          assert forall j :: 0 <= j < |s| - 1 ==> s[1..][j] == s[j + 1];
        }
        InsertByNameSorted(a, s[1..]);
        InsertByNamePermutes(a, s[1..]);
        LexLeTotal(a.name, s[0].name);
        forall j | 0 <= j < |t|
          ensures NameLe(s[0], t[j])
        {
          assert t[j] in multiset(t);
          if t[j] != a {
            assert t[j] in multiset(s[1..]);
            var k :| 0 <= k < |s[1..]| && s[1..][k] == t[j];
            assert s[k + 1] == t[j];
          }
        }
        assert forall j :: 1 <= j < |t| + 1 ==> ([s[0]] + t)[j] == t[j - 1];
      }
    }
  }

  /** The sort puts the names in ascending order. */
  lemma {:induction false} SortByNameSorted(s: seq<Account>)
    ensures SortedByName(SortByName(s))
  {
    if s != [] {
      SortByNameSorted(s[1..]);
      InsertByNameSorted(s[0], SortByName(s[1..]));
    }
  }

  /** Keeping some accounts of a sorted list keeps it sorted. */
  lemma {:induction false} FilterSortedByName(s: seq<Account>, p: Account -> bool)
    requires SortedByName(s)
    ensures SortedByName(Filter(s, p))
  {
    if s != [] {
      var t := Filter(s[1..], p);
      assert SortedByName(s[1..]) by {
        assert forall j :: 0 <= j < |s| - 1 ==> s[1..][j] == s[j + 1];
      }
      FilterSortedByName(s[1..], p);
      if p(s[0]) {
        FilterMembers(s[1..], p);
        forall j | 0 <= j < |t|
          ensures NameLe(s[0], t[j])
        {
          var k :| 0 <= k < |s[1..]| && s[1..][k] == t[j];
          assert s[k + 1] == t[j];
        }
        assert Filter(s, p) == [s[0]] + t;
        assert forall j :: 1 <= j < |t| + 1 ==> ([s[0]] + t)[j] == t[j - 1];
      } else {
        assert Filter(s, p) == [] + t;
      }
    }
  }

  /** An `<option>` of the category select: the element (each created one
      is a new object), its value and its text. */
  datatype CategoryOption = CategoryOption(element: nat, value: string, text: string)

  predicate IsOtherThan(current: Uuid, a: Account)
  {
    a.guid != current
  }

  function OtherThan(current: Uuid): Account -> bool
  {
    (a: Account) => IsOtherThan(current, a)
  }

  /** The options made for the given accounts, the k-th being element k. */
  function OptionsOf(accounts: seq<Account>): (options: seq<CategoryOption>)
    ensures |options| == |accounts|
  {
    if accounts == [] then []
    else
      var last := accounts[|accounts| - 1];
      OptionsOf(accounts[..|accounts| - 1]) + [CategoryOption(|accounts| - 1, Hyphenated(last.guid), last.name)]
  }

  lemma {:induction false} OptionsOfIndex(accounts: seq<Account>, k: int)
    requires 0 <= k < |accounts|
    ensures OptionsOf(accounts)[k] == CategoryOption(k, Hyphenated(accounts[k].guid), accounts[k].name)
  {
    var init := accounts[..|accounts| - 1];
    var last := CategoryOption(|accounts| - 1, Hyphenated(accounts[|accounts| - 1].guid), accounts[|accounts| - 1].name);
    assert OptionsOf(accounts) == OptionsOf(init) + [last];
    SnocIndex(OptionsOf(init), last, k);
    if k < |accounts| - 1 {
      OptionsOfIndex(init, k);
    }
  }

  /** The category options of the editor for the loaded account `current`. */
  function CategoryOptions(accounts: seq<Account>, current: Uuid): seq<CategoryOption>
  {
    OptionsOf(Filter(SortByName(accounts), OtherThan(current)))
  }

  /** The category select of `document_create_transaction_editor`: the
      accounts sorted by name, and an option for each one but the loaded
      account, pushed unless already contained. `contains` compares the
      option objects, so a freshly created option is never found. */
  method BuildCategoryOptions(accounts: seq<Account>, current: Uuid) returns (options: seq<CategoryOption>)
    ensures options == CategoryOptions(accounts, current)
  {
    var sorted := SortByName(accounts);
    var test := OtherThan(current);
    options := [];
    var created := 0;
    for i := 0 to |sorted|
      invariant options == OptionsOf(Filter(sorted[..i], test))
      invariant created == |options|
    {
      var account := sorted[i];
      OptionsStep(sorted, i, test);
      if account.guid != current {
        var option := CategoryOption(created, Hyphenated(account.guid), account.name);
        created := created + 1;
        FreshOptionNotIn(Filter(sorted[..i], test), option);
        if !(option in options) {
          options := options + [option];
        }
      }
    }
    assert sorted[..|sorted|] == sorted;
  }

  lemma OptionsStep(s: seq<Account>, i: int, p: Account -> bool)
    requires 0 <= i < |s|
    ensures var before := Filter(s[..i], p);
      OptionsOf(Filter(s[..i + 1], p))
        == if p(s[i]) then OptionsOf(before) + [CategoryOption(|before|, Hyphenated(s[i].guid), s[i].name)]
           else OptionsOf(before)
  {
    var before := Filter(s[..i], p);
    assert s[..i + 1] == s[..i] + [s[i]];
    FilterSnoc(s[..i], s[i], p);
    if p(s[i]) {
      assert Filter(s[..i + 1], p) == before + [s[i]];
      OptionsOfSnoc(before, s[i]);
    } else {
      assert Filter(s[..i + 1], p) == before + [];
      assert before + [] == before;
    }
  }

  lemma OptionsOfSnoc(s: seq<Account>, a: Account)
    ensures OptionsOf(s + [a]) == OptionsOf(s) + [CategoryOption(|s|, Hyphenated(a.guid), a.name)]
  {
    assert (s + [a])[..|s|] == s;
  }

  /** An option whose element is not yet used is not among the options. */
  lemma FreshOptionNotIn(s: seq<Account>, option: CategoryOption)
    requires option.element == |s|
    ensures option !in OptionsOf(s)
  {
    forall k | 0 <= k < |s|
      ensures OptionsOf(s)[k] != option
    {
      OptionsOfIndex(s, k);
    }
  }

  /** The options are in ascending order of their text. */
  lemma CategoryOptionsAscending(accounts: seq<Account>, current: Uuid)
    ensures var options := CategoryOptions(accounts, current);
      forall i, j :: 0 <= i < j < |options| ==> LexLe(options[i].text, options[j].text)
  {
    var shown := Filter(SortByName(accounts), OtherThan(current));
    SortByNameSorted(accounts);
    FilterSortedByName(SortByName(accounts), OtherThan(current));
    forall i, j | 0 <= i < j < |shown|
      ensures LexLe(OptionsOf(shown)[i].text, OptionsOf(shown)[j].text)
    {
      OptionsOfIndex(shown, i);
      OptionsOfIndex(shown, j);
    }
  }

  lemma HyphenatedInjective(g: Uuid, h: Uuid)
    requires Hyphenated(g) == Hyphenated(h)
    ensures g == h
  {
    ParseUuidOfHyphenated(g);
    ParseUuidOfHyphenated(h);
  }

  /** No option is the loaded account, and no option object appears twice. */
  lemma CategoryOptionsExcludeCurrent(accounts: seq<Account>, current: Uuid)
    ensures var options := CategoryOptions(accounts, current);
      && (forall k :: 0 <= k < |options| ==> options[k].value != Hyphenated(current))
      && (forall i, j :: 0 <= i < j < |options| ==> options[i] != options[j])
  {
    var shown := Filter(SortByName(accounts), OtherThan(current));
    FilterMembers(SortByName(accounts), OtherThan(current));
    forall k | 0 <= k < |shown|
      ensures OptionsOf(shown)[k].value != Hyphenated(current) && OptionsOf(shown)[k].element == k
    {
      OptionsOfIndex(shown, k);
      if Hyphenated(shown[k].guid) == Hyphenated(current) {
        HyphenatedInjective(shown[k].guid, current);
      }
    }
  }

  /** Every account other than the loaded one gets an option with its GUID
      and its name. */
  lemma CategoryOptionsComplete(accounts: seq<Account>, current: Uuid, a: Account)
    requires a in accounts && a.guid != current
    ensures var options := CategoryOptions(accounts, current);
      exists k :: 0 <= k < |options| && options[k].value == Hyphenated(a.guid) && options[k].text == a.name
  {
    var sorted := SortByName(accounts);
    var shown := Filter(sorted, OtherThan(current));
    InSorted(accounts, a);
    var k := InFilter(sorted, OtherThan(current), a);
    OptionsOfIndex(shown, k);
    var options := CategoryOptions(accounts, current);
    assert options == OptionsOf(shown);
    assert options[k].value == Hyphenated(a.guid) && options[k].text == a.name;
  }

  lemma InSorted(s: seq<Account>, a: Account)
    requires a in s
    ensures a in SortByName(s)
  {
    SortByNamePermutes(s);
    assert a in multiset(s);
    assert a in multiset(SortByName(s));
  }

  lemma InFilter<T>(s: seq<T>, p: T -> bool, x: T) returns (k: int)
    requires x in s && p(x)
    ensures 0 <= k < |Filter(s, p)| && Filter(s, p)[k] == x
  {
    FilterMembers(s, p);
    var i :| 0 <= i < |s| && s[i] == x;
    assert s[i] in Filter(s, p);
    k :| 0 <= k < |Filter(s, p)| && Filter(s, p)[k] == x;
  }

  // The category picked from the select (`enter_transaction_on_click`).

  const U32Modulus: int := 0x1_0000_0000
  const I32Modulus: int := 0x8000_0000

  /** `options.length() - 1` in u32: it wraps to 4294967295 for no option. */
  function LoopBound(len: nat): (b: nat)
    requires len < U32Modulus
    ensures len >= 1 ==> b == len - 1
    ensures len == 0 ==> b == U32Modulus - 1
  {
    (len - 1) % U32Modulus
  }

  /** `i as i32` of a u32. */
  function AsI32(i: nat): (v: int)
    requires i < U32Modulus
    ensures -I32Modulus <= v < I32Modulus && (v - i) % U32Modulus == 0
  {
    if i < I32Modulus then i else i - U32Modulus
  }

  /** The category a transaction goes to: the account's GUID and name. */
  datatype Category = Category(guid: Uuid, name: string)

  const NoCategory: Category := Category(Nil, "")
  const FailedToFindOption: string := "Failed to find option!"
  const FailedToConvertCategory: string := "Failed to convert category guid!"

  /** The category of a selected option: its value must be a GUID. */
  function OptionCategory(option: CategoryOption): (r: Outcome<Category>)
    ensures r.Ok? <==> ConvertStringToGuid(option.value).Ok?
    ensures r.Ok? ==> r.value == Category(ConvertStringToGuid(option.value).value, option.text)
    ensures !r.Ok? ==> r == Panic(FailedToConvertCategory)
  {
    match ConvertStringToGuid(option.value)
    case Ok(g) => Ok(Category(g, option.text))
    case _ => Panic(FailedToConvertCategory)
  }

  /** What the selection loop yields, as written: it looks at the indices
      below `LoopBound`, so the last option is never matched. */
  function SelectedCategoryAsWritten(options: seq<CategoryOption>, selected: int): (r: Outcome<Category>)
    requires |options| < U32Modulus && -I32Modulus <= selected < I32Modulus
  {
    var index := if selected >= 0 then selected else selected + U32Modulus;
    if index >= LoopBound(|options|) then Ok(NoCategory)
    else if index >= |options| then Panic(FailedToFindOption)
    else OptionCategory(options[index])
  }

  /** The loop over `0..(options.length() - 1)`, comparing the selected
      index with `i as i32`. */
  method SelectCategory(options: seq<CategoryOption>, selected: int) returns (r: Outcome<Category>)
    requires |options| < U32Modulus && -I32Modulus <= selected < I32Modulus
    ensures r == SelectedCategoryAsWritten(options, selected)
  {
    var accountName := "";
    var accountGuid := Nil;
    var bound := LoopBound(|options|);
    var index := if selected >= 0 then selected else selected + U32Modulus;
    var i := 0;
    while i < bound
      invariant 0 <= i <= bound
      invariant index >= i
    {
      if selected == AsI32(i) {
        assert index == i;
        if i >= |options| {
          return Panic(FailedToFindOption);
        }
        var option := options[i];
        var guid := ConvertStringToGuid(option.value);
        if !guid.Ok? {
          return Panic(FailedToConvertCategory);
        }
        accountGuid := guid.value;
        accountName := option.text;
        return Ok(Category(accountGuid, accountName));
      }
      assert index != i;
      i := i + 1;
    }
    return Ok(Category(accountGuid, accountName));
  }

  /** The intended selection: the selected option, or no category when
      nothing is selected. */
  function SelectedCategory(options: seq<CategoryOption>, selected: int): (r: Outcome<Category>)
    ensures 0 <= selected < |options| ==> r == OptionCategory(options[selected])
    ensures !(0 <= selected < |options|) ==> r == Ok(NoCategory)
  {
    if 0 <= selected < |options| then OptionCategory(options[selected]) else Ok(NoCategory)
  }

  /** Selecting option k of the editor's list gives the k-th shown account. */
  lemma SelectedCategoryOfShownOption(accounts: seq<Account>, current: Uuid, k: int)
    requires 0 <= k < |Filter(SortByName(accounts), OtherThan(current))|
    ensures var a := Filter(SortByName(accounts), OtherThan(current))[k];
      SelectedCategory(CategoryOptions(accounts, current), k) == Ok(Category(a.guid, a.name))
  {
    var shown := Filter(SortByName(accounts), OtherThan(current));
    OptionsOfIndex(shown, k);
    HyphenatedRoundTrip(shown[k].guid);
  }

  /** As written, the loop agrees with the intended selection except when
      the last option is selected. */
  lemma SelectedCategoryAsWrittenAgrees(options: seq<CategoryOption>, selected: int)
    requires |options| <= I32Modulus && -1 <= selected < |options| - 1
    ensures SelectedCategoryAsWritten(options, selected) == SelectedCategory(options, selected)
  {
  }

  /** ... and selecting the last option gives no category at all. */
  lemma SelectedCategoryAsWrittenMissesLast(options: seq<CategoryOption>)
    requires 1 <= |options| <= I32Modulus
    ensures SelectedCategoryAsWritten(options, |options| - 1) == Ok(NoCategory)
    ensures SelectedCategory(options, |options| - 1) == OptionCategory(options[|options| - 1])
  {
  }

  /** A single option selected: as written the loop yields no category,
      although the option names an account. */
  lemma SelectCategoryOfOnlyOption(g: Uuid, name: string)
    ensures var options := [CategoryOption(0, Hyphenated(g), name)];
      && SelectedCategoryAsWritten(options, 0) == Ok(NoCategory)
      && SelectedCategory(options, 0) == Ok(Category(g, name))
  {
    HyphenatedRoundTrip(g);
  }

  // The prefill of `load_last_transaction_for_account`.

  const LoadLastFailure: string := "Failed to load last transaction for account"

  function InvalidAccountGuidMessage(value: string): string
  {
    "The given account_guid is not valid! '" + value + "'"
  }

  function InvalidOptionValueMessage(value: string): string
  {
    "Failed to convert option value '" + value + "' to guid."
  }

  /** The scan of the options from index `i` up to `end` for the one whose
      value is the GUID `target`: an index past the options, or a value that
      is not a GUID, panics. */
  function FindOption(options: seq<CategoryOption>, i: nat, end: nat, target: Uuid): (r: Outcome<Option<nat>>)
    requires i <= end
    ensures r.Ok? && r.value.Some? ==> i <= r.value.value < end && r.value.value < |options|
    ensures !r.Err?
    decreases end - i
  {
    if i == end then Ok(None)
    else if i >= |options| then Panic(LoadLastFailure)
    else
      var guid := ConvertStringToGuid(options[i].value);
      if !guid.Ok? then Panic(InvalidOptionValueMessage(options[i].value))
      else if guid.value == target then Ok(Some(i))
      else FindOption(options, i + 1, end, target)
  }

  /** What the description's blur fills in: the change and the selected
      category option, when set. */
  datatype Prefill = Prefill(change: Option<Num>, selected: Option<nat>)

  /** `load_last_transaction_for_account` as written, given the GUID text of
      the loaded account, the transactions found for it and the entered
      description, and the category options: the scan stops at `LoopBound`,
      before the last option. */
  function LastTransactionPrefillAsWritten(currentGuid: string, found: seq<TransactionWithSplitInformation>,
                                           options: seq<CategoryOption>): (r: Outcome<Prefill>)
    requires |options| < U32Modulus
  {
    if !ConvertStringToGuid(currentGuid).Ok? then Panic(InvalidAccountGuidMessage(currentGuid))
    else if |found| != 1 then Ok(Prefill(None, None))
    else
      var scan := FindOption(options, 0, LoopBound(|options|), found[0].account_guid);
      if scan.Ok? then Ok(Prefill(Some(AmountOf(found[0])), scan.value)) else Failure(scan)
  }

  /** The loop of `load_last_transaction_for_account`. */
  method LoadLastTransactionForAccount(currentGuid: string, found: seq<TransactionWithSplitInformation>,
                                       options: seq<CategoryOption>) returns (r: Outcome<Prefill>)
    requires |options| < U32Modulus
    ensures r == LastTransactionPrefillAsWritten(currentGuid, found, options)
  {
    var loaded := ConvertStringToGuid(currentGuid);
    if !loaded.Ok? {
      return Panic(InvalidAccountGuidMessage(currentGuid));
    }
    if |found| != 1 {
      return Ok(Prefill(None, None));
    }
    var change := Amount(found[0].value_num, found[0].value_denom);
    var bound := LoopBound(|options|);
    var i := 0;
    while i < bound
      invariant 0 <= i <= bound
      invariant FindOption(options, i, bound, found[0].account_guid) == FindOption(options, 0, bound, found[0].account_guid)
    {
      if i >= |options| {
        return Panic(LoadLastFailure);
      }
      var value := options[i].value;
      var guid := ConvertStringToGuid(value);
      if !guid.Ok? {
        return Panic(InvalidOptionValueMessage(value));
      }
      if guid.value == found[0].account_guid {
        return Ok(Prefill(Some(change), Some(i)));
      }
      i := i + 1;
    }
    return Ok(Prefill(Some(change), None));
  }

  /** The intended prefill: the scan covers every option. */
  function LastTransactionPrefill(currentGuid: string, found: seq<TransactionWithSplitInformation>,
                                  options: seq<CategoryOption>): (r: Outcome<Prefill>)
    ensures ConvertStringToGuid(currentGuid).Err? ==> r == Panic(InvalidAccountGuidMessage(currentGuid))
    ensures ConvertStringToGuid(currentGuid).Ok? && |found| != 1 ==> r == Ok(Prefill(None, None))
    ensures r.Ok? && |found| == 1 ==> r.value.change == Some(AmountOf(found[0]))
  {
    if !ConvertStringToGuid(currentGuid).Ok? then Panic(InvalidAccountGuidMessage(currentGuid))
    else if |found| != 1 then Ok(Prefill(None, None))
    else
      var scan := FindOption(options, 0, |options|, found[0].account_guid);
      if scan.Ok? then Ok(Prefill(Some(AmountOf(found[0])), scan.value)) else Failure(scan)
  }

  /** The scan picks the first option whose value is the GUID, when every
      option before it holds another GUID. */
  lemma {:induction false} FindOptionFinds(options: seq<CategoryOption>, i: nat, end: nat, target: Uuid, k: nat)
    requires i <= k < end && k < |options|
    requires ConvertStringToGuid(options[k].value) == Ok(target)
    requires forall j :: i <= j < k ==> (ConvertStringToGuid(options[j].value).Ok?
                                    && ConvertStringToGuid(options[j].value).value != target)
    ensures FindOption(options, i, end, target) == Ok(Some(k))
    decreases k - i
  {
    var guid := ConvertStringToGuid(options[i].value);
    if i < k {
      assert guid.Ok? && guid.value != target;
      FindOptionFinds(options, i + 1, end, target, k);
    } else {
      assert guid == Ok(target);
    }
  }

  /** With the intended scan, the found transaction's category is selected
      wherever it stands, the last option included. */
  lemma LastTransactionPrefillSelects(currentGuid: string, t: TransactionWithSplitInformation,
                                      options: seq<CategoryOption>, k: nat)
    requires ConvertStringToGuid(currentGuid).Ok?
    requires k < |options| && ConvertStringToGuid(options[k].value) == Ok(t.account_guid)
    requires forall j :: 0 <= j < k ==> (ConvertStringToGuid(options[j].value).Ok?
                                    && ConvertStringToGuid(options[j].value).value != t.account_guid)
    ensures LastTransactionPrefill(currentGuid, [t], options) == Ok(Prefill(Some(AmountOf(t)), Some(k)))
  {
    FindOptionFinds(options, 0, |options|, t.account_guid, k);
  }

  /** As written, the last option is never selected. */
  lemma LastTransactionPrefillAsWrittenSkipsLast(currentGuid: string, found: seq<TransactionWithSplitInformation>,
                                                 options: seq<CategoryOption>)
    requires 1 <= |options| < U32Modulus
    ensures var r := LastTransactionPrefillAsWritten(currentGuid, found, options);
      r.Ok? && r.value.selected.Some? ==> r.value.selected.value < |options| - 1
  {
  }

  /** A transaction whose category is the only option: as written nothing
      is selected, where the intended scan selects that option. */
  lemma LastTransactionOfOnlyOption(currentGuid: string, t: TransactionWithSplitInformation, name: string)
    requires ConvertStringToGuid(currentGuid).Ok?
    ensures var options := [CategoryOption(0, Hyphenated(t.account_guid), name)];
      && LastTransactionPrefillAsWritten(currentGuid, [t], options) == Ok(Prefill(Some(AmountOf(t)), None))
      && LastTransactionPrefill(currentGuid, [t], options) == Ok(Prefill(Some(AmountOf(t)), Some(0)))
  {
    HyphenatedRoundTrip(t.account_guid);
    var options := [CategoryOption(0, Hyphenated(t.account_guid), name)];
    FindOptionFinds(options, 0, 1, t.account_guid, 0);
  }
}
