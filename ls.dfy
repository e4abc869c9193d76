/**
 * The `ls` command: parsing `-filter` arguments into query keywords,
 * accumulating them, the arguments of the listing query, the listing loop
 * (count cut-off, size tag, short-format titles) and the usage line built
 * from the parser's options.
 */
module Ls {
  import opened Wrappers
  import opened Text

  // ---------------------------------------------------------------------------
  // Filters
  // ---------------------------------------------------------------------------

  /** The `Filters` enumeration: a member name accepted on the command line and the query keyword it stands for. */
  datatype Filter = Creator | User | Owner | Author | Group | FullText | Published | Editable | Public
  {
    /** The member's name, upper case. */
    function Name(): string {
      match this
      case Creator => "CREATOR"
      case User => "USER"
      case Owner => "OWNER"
      case Author => "AUTHOR"
      case Group => "GROUP"
      case FullText => "TEXT"
      case Published => "PUBLISHED"
      case Editable => "EDITABLE"
      case Public => "PUBLIC"
    }

    /** The member's value: the keyword the resource query understands. */
    function Keyword(): string {
      match this
      case Creator => "creator"
      case User => "user"
      case Owner => "owner"
      case Author => "author"
      case Group => "group"
      case FullText => "full_text_search"
      case Published => "published"
      case Editable => "edit_permission"
      case Public => "public"
    }
  }

  /** `k` is the value of some filter. */
  predicate IsKeyword(k: string) {
    exists f: Filter :: f.Keyword() == k
  }

  /** The members by name, as attribute lookup on the enumeration finds them. */
  const ByName: map<string, Filter> :=
    map["CREATOR" := Creator, "USER" := User, "OWNER" := Owner, "AUTHOR" := Author, "GROUP" := Group,
        "TEXT" := FullText, "PUBLISHED" := Published, "EDITABLE" := Editable, "PUBLIC" := Public]

  /** `getattr(Filters, key.upper())`: the filter named by the upper-cased key; None when there is none. */
  function Lookup(key: string): (r: Option<Filter>)
    ensures r.Some? ==> r.value.Name() == Upper(key)
    ensures r.None? ==> forall f: Filter :: f.Name() != Upper(key)
  {
    var name := Upper(key);
    if name in ByName then Some(ByName[name]) else None
  }

  /**
   * `parse_filter`: a `key=value` argument becomes a one-entry map from the
   * key's filter keyword to the value. None (the "invalid filter" message)
   * when the argument does not split into exactly two parts on `=` or the key
   * names no filter.
   */
  function ParseFilter(arg: string): Option<map<string, string>> {
    var parts := Split(arg, '=');
    if |parts| != 2 then None
    else
      match Lookup(parts[0])
      case None => None
      case Some(f) => Some(map[f.Keyword() := parts[1]])
  }

  /** A valid filter is a one-entry map keyed by a filter keyword. */
  lemma ParseFilterShape(arg: string)
    ensures ParseFilter(arg).Some? ==>
      |ParseFilter(arg).value| == 1 && forall k :: k in ParseFilter(arg).value ==> IsKeyword(k)
  {
    if ParseFilter(arg).Some? {
      var f := Lookup(Split(arg, '=')[0]).value;
      assert IsKeyword(f.Keyword());
    }
  }

  /** An argument with no `=`, or with more than one, is invalid. */
  lemma ParseFilterNeedsOneEquals(arg: string)
    ensures multiset(arg)['='] != 1 ==> ParseFilter(arg).None?
  {
    SplitCount(arg, '=');
  }

  /**
   * An argument with exactly one `=` is valid exactly when the part before it
   * names a filter, case-insensitively; the part after it is the value,
   * verbatim, even when it is empty.
   */
  lemma ParseFilterOfPair(key: string, value: string)
    requires '=' !in key && '=' !in value
    ensures ParseFilter(key + "=" + value)
         == (match Lookup(key)
             case None => None
             case Some(f) => Some(map[f.Keyword() := value]))
  {
    SplitAfterPiece(key, '=', value);
    SplitNoSeparator(value, '=');
    assert key + "=" + value == key + ['='] + value;
  }

  /** Case does not matter: a key and its upper case name the same filter. */
  lemma LookupIgnoresCase(key: string)
    ensures Lookup(Upper(key)) == Lookup(key)
  {
    assert forall i :: 0 <= i < |key| ==> UpperChar(UpperChar(key[i])) == UpperChar(key[i]);
    assert Upper(Upper(key)) == Upper(key);
  }

  /** `text=x` asks for a full-text search for `x`. */
  lemma ParseFilterTextExample()
    ensures ParseFilter("text=x") == Some(map["full_text_search" := "x"])
  {
    var key := "text";
    assert Upper(key) == "TEXT" by {
      assert UpperChar('t') == 'T' && UpperChar('e') == 'E' && UpperChar('x') == 'X';
    }
    assert "text=x" == key + "=" + "x";
    ParseFilterOfPair(key, "x");
  }

  /** `Editable=y`: the key's case does not matter. */
  lemma ParseFilterEditableExample()
    ensures ParseFilter("Editable=y") == Some(map["edit_permission" := "y"])
  {
    var key := "Editable";
    assert Upper(key) == "EDITABLE" by {
      assert UpperChar('E') == 'E' && UpperChar('d') == 'D' && UpperChar('i') == 'I' && UpperChar('t') == 'T';
      assert UpperChar('a') == 'A' && UpperChar('b') == 'B' && UpperChar('l') == 'L' && UpperChar('e') == 'E';
    }
    assert "Editable=y" == key + "=" + "y";
    ParseFilterOfPair(key, "y");
  }

  /** An empty key names no filter. */
  lemma EmptyKeyIsInvalid(value: string)
    requires '=' !in value
    ensures ParseFilter("=" + value) == None
  {
    assert Upper("") == "";
    assert "=" + value == "" + "=" + value;
    ParseFilterOfPair("", value);
  }

  // ---------------------------------------------------------------------------
  // Accumulating filters
  // ---------------------------------------------------------------------------

  /**
   * The parsed filters applied one after another as map updates; None as
   * soon as one argument is invalid.
   */
  function Accumulate(args: seq<string>): Option<map<string, string>> {
    if args == [] then Some(map[])
    else
      var before := Accumulate(args[..|args| - 1]);
      var last := ParseFilter(args[|args| - 1]);
      if before.None? || last.None? then None else Some(before.value + last.value)
  }

  /**
   * The filter loop of `ls`: each argument is parsed and merged into the
   * filter map in order; the first invalid one ends the program with exit
   * status 1.
   */
  method CollectFilters(args: seq<string>) returns (r: Result<map<string, string>, int>)
    ensures r.Err? <==> Accumulate(args).None?
    ensures r.Err? ==> r.error == 1
    ensures r.Ok? ==> Accumulate(args) == Some(r.value)
  {
    var filters: map<string, string> := map[];
    for i := 0 to |args|
      invariant Accumulate(args[..i]) == Some(filters)
    {
      assert args[..i + 1][..i] == args[..i];
      var pf := ParseFilter(args[i]);
      if pf.None? {
        AccumulateFailsForGood(args, i + 1);
        return Err(1);
      }
      filters := filters + pf.value;
    }
    assert args[..|args|] == args;
    r := Ok(filters);
  }

  /** Once a prefix of the arguments is invalid, so are all the arguments. */
  lemma {:induction false} AccumulateFailsForGood(args: seq<string>, n: nat)
    requires n <= |args| && Accumulate(args[..n]).None?
    ensures Accumulate(args).None?
    decreases |args| - n
  {
    if n < |args| {
      assert args[..n + 1][..n] == args[..n];
      AccumulateFailsForGood(args, n + 1);
    } else {
      assert args[..n] == args;
    }
  }

  /** The filters are rejected exactly when one of the arguments is invalid. */
  lemma {:induction false} AccumulateFailsIff(args: seq<string>)
    ensures Accumulate(args).None? <==> exists i :: 0 <= i < |args| && ParseFilter(args[i]).None?
  {
    if args != [] {
      var init := args[..|args| - 1];
      AccumulateFailsIff(init);
      assert forall i :: 0 <= i < |init| ==> init[i] == args[i];
    }
  }

  /** Only filter keywords end up in the filter map. */
  lemma {:induction false} AccumulateKeys(args: seq<string>)
    requires Accumulate(args).Some?
    ensures forall k :: k in Accumulate(args).value ==> IsKeyword(k)
  {
    if args != [] {
      AccumulateKeys(args[..|args| - 1]);
      ParseFilterShape(args[|args| - 1]);
    }
  }

  /** A later filter for the same keyword overrides an earlier one: the last one wins. */
  lemma {:induction false} AccumulateLastWins(args: seq<string>, i: nat, k: string, v: string)
    requires Accumulate(args).Some? && i < |args|
    requires ParseFilter(args[i]) == Some(map[k := v])
    requires forall j :: i < j < |args| ==> ParseFilter(args[j]).None? || k !in ParseFilter(args[j]).value
    ensures k in Accumulate(args).value && Accumulate(args).value[k] == v
  {
    var init := args[..|args| - 1];
    if i < |args| - 1 {
      assert init[i] == args[i];
      assert forall j :: i < j < |init| ==> init[j] == args[j];
      AccumulateLastWins(init, i, k, v);
    }
  }

  // ---------------------------------------------------------------------------
  // The listing query
  // ---------------------------------------------------------------------------

  /** The number of resources fetched per page. */
  const PageSize := 25

  /** A keyword argument of the resource query: a string or a number. */
  datatype QueryArg = StrArg(s: string) | IntArg(n: int)

  /** The keyword arguments of the query: owner and page size, with the filters applied over them. */
  function QueryArgs(username: string, filters: map<string, string>): (q: map<string, QueryArg>)
    ensures q.Keys == filters.Keys + {"owner", "count"}
    ensures forall k :: k in filters ==> q[k] == StrArg(filters[k])
    ensures "owner" !in filters ==> q["owner"] == StrArg(username)
    ensures "count" !in filters ==> q["count"] == IntArg(PageSize)
  {
    map["owner" := StrArg(username), "count" := IntArg(PageSize)]
      + map k | k in filters :: StrArg(filters[k])
  }

  /**
   * With filters made of filter keywords, the page size is always 25 (no
   * filter is called `count`), and the owner is the user unless an `owner`
   * filter replaces it.
   */
  lemma QueryOfFilters(username: string, filters: map<string, string>)
    requires forall k :: k in filters ==> IsKeyword(k)
    ensures QueryArgs(username, filters)["count"] == IntArg(PageSize)
    ensures QueryArgs(username, filters)["owner"]
         == StrArg(if "owner" in filters then filters["owner"] else username)
  {
    assert !IsKeyword("count") by {
      forall f: Filter
        ensures f.Keyword() != "count"
      {
      }
    }
  }

  // ---------------------------------------------------------------------------
  // Sizes
  // ---------------------------------------------------------------------------

  /** A resource as the listing query returns it. */
  datatype Resource = Resource(resid: string, title: string, dateCreated: string,
                               creator: string, authors: seq<string>)

  /** The size tag of a listed resource: a size, `[ERROR]` or `[?]`. */
  datatype SizeTag = Sized(bytes: int) | SizeError | SizeUnknown

  /** The total recorded when the file listing of a resource cannot be read. */
  const FailedSize := -999

  function Sum(xs: seq<int>): int {
    if xs == [] then 0 else Sum(xs[..|xs| - 1]) + xs[|xs| - 1]
  }

  /** The loop adding up the sizes of a resource's files. */
  method TotalSize(sizes: seq<int>) returns (total: int)
    ensures total == Sum(sizes)
  {
    total := 0;
    for i := 0 to |sizes|
      invariant total == Sum(sizes[..i])
    {
      assert sizes[..i + 1][..i] == sizes[..i];
      total := total + sizes[i];
    }
    assert sizes[..|sizes|] == sizes;
  }

  /** File sizes are never negative, so neither is their total. */
  lemma {:induction false} SumNonnegative(xs: seq<int>)
    requires forall i :: 0 <= i < |xs| ==> xs[i] >= 0
    ensures Sum(xs) >= 0
    ensures Sum(xs) == 0 <==> forall i :: 0 <= i < |xs| ==> xs[i] == 0
  {
    if xs != [] {
      SumNonnegative(xs[..|xs| - 1]);
    }
  }

  /**
   * The total the listing computes for a resource: 0 when sizes are not
   * asked for, -999 when the file listing cannot be read (`files` gives None),
   * else the sum of the file sizes.
   */
  function SizeOf(resid: string, size: bool, files: string -> Option<seq<int>>): int {
    if !size then 0
    else if files(resid).None? then FailedSize
    else Sum(files(resid).value)
  }

  /** The tag for a total: positive is a size, negative an error, zero unknown. */
  function Tag(bytes: int): (t: SizeTag)
    ensures t.Sized? <==> bytes > 0
    ensures t == SizeError <==> bytes < 0
    ensures t.Sized? ==> t.bytes == bytes
  {
    if bytes > 0 then Sized(bytes) else if bytes < 0 then SizeError else SizeUnknown
  }

  /**
   * Without the size flag every resource is tagged `[?]`; an unreadable
   * listing is tagged `[ERROR]`; a readable one with sizes that are not
   * negative is a size exactly when some file is not empty, and `[?]`
   * otherwise.
   */
  lemma SizeTagRules(resid: string, size: bool, files: string -> Option<seq<int>>)
    ensures !size ==> Tag(SizeOf(resid, size, files)) == SizeUnknown
    ensures size && files(resid).None? ==> Tag(SizeOf(resid, size, files)) == SizeError
    ensures size && files(resid).Some? && (forall i :: 0 <= i < |files(resid).value| ==> files(resid).value[i] >= 0) ==>
      var xs := files(resid).value;
      && (Tag(SizeOf(resid, size, files)).Sized? <==> exists i :: 0 <= i < |xs| && xs[i] > 0)
      && (Tag(SizeOf(resid, size, files)) == SizeUnknown <==> forall i :: 0 <= i < |xs| ==> xs[i] == 0)
  {
    if size && files(resid).Some? && (forall i :: 0 <= i < |files(resid).value| ==> files(resid).value[i] >= 0) {
      SumNonnegative(files(resid).value);
    }
  }

  // ---------------------------------------------------------------------------
  // Printed entries
  // ---------------------------------------------------------------------------

  /** The width the short format gives a title, before the ellipsis column. */
  const TitleWidth := 25

  /**
   * A title in the short format: its first 25 characters, padded with spaces
   * to 25, then `...` when it was longer than 25 characters and three spaces
   * when it was not.
   */
  function ShortTitle(title: string): (r: string)
    ensures |r| == TitleWidth + 3
    ensures forall i :: 0 <= i < TitleWidth ==> r[i] == if i < |title| then title[i] else ' '
    ensures r[TitleWidth..] == if |title| > TitleWidth then "..." else "   "
  {
    var head := if |title| > TitleWidth then title[..TitleWidth] else title;
    head + Spaces(TitleWidth - |head|) + (if |title| > TitleWidth then "..." else "   ")
  }

  /** A title of at most 25 characters is shown whole, padded with spaces to the column width. */
  lemma ShortTitleOfShortTitle(title: string)
    requires |title| <= TitleWidth
    ensures ShortTitle(title) == title + Spaces(TitleWidth + 3 - |title|)
  {
  }

  /** A longer title is cut: the short form starts with its first 25 characters and ends with `...`. */
  lemma ShortTitleOfLongTitle(title: string)
    requires |title| > TitleWidth
    ensures ShortTitle(title) == title[..TitleWidth] + "..."
  {
  }

  /** One listed resource, in the short or the long format. */
  datatype Entry =
    | Short(title: string, resid: string, tag: SizeTag)
    | Long(resid: string, tag: SizeTag, title: string, dateCreated: string, owner: string, authors: string)

  /** What is printed for one resource. */
  function EntryFor(r: Resource, longFormat: bool, tag: SizeTag): Entry {
    if longFormat then Long(r.resid, tag, r.title, r.dateCreated, r.creator, Join(r.authors, ", "))
    else Short(ShortTitle(r.title), r.resid, tag)
  }

  /** How many resources are printed: none for a count of 0 or less, else at most `count`. */
  function Shown(count: int, available: nat): (n: nat)
    ensures n <= available
    ensures count <= 0 ==> n == 0
    ensures count > 0 ==> n <= count && (n < available ==> n == count)
  {
    if count <= 0 then 0 else if count < available then count else available
  }

  /**
   * `print_resource_list`: the query arguments, then one entry per resource
   * in the order the service returns them, counting as it goes and stopping
   * as soon as the count passes `count`. `consumed` is how many resources the
   * loop drew from the query's result. `files` stands for reading a
   * resource's file listing (None when that raises).
   */
  method PrintResourceList(username: string, filters: map<string, string>, count: int,
                           longFormat: bool, size: bool,
                           resources: seq<Resource>, files: string -> Option<seq<int>>)
    returns (query: map<string, QueryArg>, printed: seq<Entry>, consumed: nat)
    ensures query == QueryArgs(username, filters)
    ensures |printed| == Shown(count, |resources|)
    ensures forall i :: 0 <= i < |printed| ==>
      printed[i] == EntryFor(resources[i], longFormat, Tag(SizeOf(resources[i].resid, size, files)))
    ensures consumed == if |printed| < |resources| then |printed| + 1 else |resources|
  {
    query := QueryArgs(username, filters);
    printed, consumed := [], 0;
    var cnt := 0;
    while cnt < |resources|
      invariant 0 <= cnt <= |resources|
      invariant cnt == 0 || cnt <= count
      invariant |printed| == cnt && consumed == cnt
      invariant forall i :: 0 <= i < cnt ==>
        printed[i] == EntryFor(resources[i], longFormat, Tag(SizeOf(resources[i].resid, size, files)))
    {
      var r := resources[cnt];
      cnt := cnt + 1;
      consumed := cnt;
      if cnt > count {
        return;
      }
      var bytes := 0;
      if size {
        var listing := files(r.resid);
        if listing.None? {
          bytes := FailedSize;
        } else {
          bytes := TotalSize(listing.value);
        }
      }
      printed := printed + [EntryFor(r, longFormat, Tag(bytes))];
    }
  }

  // ---------------------------------------------------------------------------
  // Usage line
  // ---------------------------------------------------------------------------

  /** An option string in the usage line: bracketed. */
  function Bracket(o: string): string {
    "[" + o + "]"
  }

  /**
   * The optional part of the usage line, built one option at a time: an
   * option without option strings is skipped; the first string, bracketed,
   * goes at the end when it holds `--` and at the front otherwise.
   */
  function Optionals(options: seq<seq<string>>): seq<string> {
    if options == [] then []
    else
      var before := Optionals(options[..|options| - 1]);
      var o := options[|options| - 1];
      if o == [] then before
      else if HasSubstring(Bracket(o[0]), "--") then before + [Bracket(o[0])]
      else [Bracket(o[0])] + before
  }

  /** The usage line: program, positionals, optionals, separated by single spaces. */
  function Usage(options: seq<seq<string>>, positionals: seq<string>): string {
    "%(prog)s " + Join(positionals, " ") + " " + Join(Optionals(options), " ")
  }

  /**
   * `set_usage`: the loop over the optional actions, the loop over the
   * positional ones, and the usage line made of both. `options` holds the
   * option strings of each optional action and `positionals` the names of
   * the positional ones, each in the parser's order.
   */
  method SetUsage(options: seq<seq<string>>, positionals: seq<string>) returns (usage: string)
    ensures usage == Usage(options, positionals)
  {
    var optionals: seq<string> := [];
    for i := 0 to |options|
      invariant optionals == Optionals(options[..i])
    {
      assert options[..i + 1][..i] == options[..i];
      var option := options[i];
      if |option| > 0 {
        var ostring := Bracket(option[0]);
        if HasSubstring(ostring, "--") {
          optionals := optionals + [ostring];
        } else {
          optionals := [ostring] + optionals;
        }
      }
    }
    assert options[..|options|] == options;
    var names: seq<string> := [];
    for i := 0 to |positionals|
      invariant names == positionals[..i]
    {
      names := names + [positionals[i]];
    }
    assert names == positionals;
    usage := "%(prog)s " + Join(names, " ") + " " + Join(optionals, " ");
  }

  /** The bracketed first strings of the options whose first string holds `--`, in order. */
  function Longs(options: seq<seq<string>>): seq<string> {
    if options == [] then []
    else
      var o := options[|options| - 1];
      Longs(options[..|options| - 1])
        + (if o != [] && HasSubstring(o[0], "--") then [Bracket(o[0])] else [])
  }

  /** The bracketed first strings of the other options, in order. */
  function Shorts(options: seq<seq<string>>): seq<string> {
    if options == [] then []
    else
      var o := options[|options| - 1];
      Shorts(options[..|options| - 1])
        + (if o != [] && !HasSubstring(o[0], "--") then [Bracket(o[0])] else [])
  }

  function Reverse<T>(s: seq<T>): seq<T> {
    if s == [] then [] else [s[|s| - 1]] + Reverse(s[..|s| - 1])
  }

  /**
   * The ordering rule of the usage line: the options without `--` come
   * first, in reverse order, then the `--` options in their own order.
   */
  lemma {:induction false} OptionalsOrder(options: seq<seq<string>>)
    ensures Optionals(options) == Reverse(Shorts(options)) + Longs(options)
  {
    if options != [] {
      var init := options[..|options| - 1];
      OptionalsOrder(init);
      OptionalsStep(options);
      var o := options[|options| - 1];
      if o != [] && !HasSubstring(o[0], "--") {
        ReverseSnoc(Shorts(init), Bracket(o[0]));
      }
    }
  }

  /** One option more: where it goes in each of the three sequences. */
  lemma OptionalsStep(options: seq<seq<string>>)
    requires options != []
    ensures
      var init := options[..|options| - 1];
      var o := options[|options| - 1];
      if o == [] then
        Optionals(options) == Optionals(init) && Shorts(options) == Shorts(init) && Longs(options) == Longs(init)
      else if HasSubstring(o[0], "--") then
        && Optionals(options) == Optionals(init) + [Bracket(o[0])]
        && Shorts(options) == Shorts(init)
        && Longs(options) == Longs(init) + [Bracket(o[0])]
      else
        && Optionals(options) == [Bracket(o[0])] + Optionals(init)
        && Shorts(options) == Shorts(init) + [Bracket(o[0])]
        && Longs(options) == Longs(init)
  {
    var o := options[|options| - 1];
    if o != [] {
      BracketsKeepDoubleDash(o[0]);
    }
  }

  lemma ReverseSnoc<T>(s: seq<T>, x: T)
    ensures Reverse(s + [x]) == [x] + Reverse(s)
  {
    assert (s + [x])[..|s|] == s;
  }

  /** No option is lost or invented: the optional part holds exactly the bracketed first strings. */
  lemma {:induction false} OptionalsArePartition(options: seq<seq<string>>)
    ensures multiset(Optionals(options)) == multiset(Shorts(options)) + multiset(Longs(options))
  {
    OptionalsOrder(options);
    ReverseKeepsElements(Shorts(options));
  }

  lemma {:induction false} ReverseKeepsElements<T>(s: seq<T>)
    ensures multiset(Reverse(s)) == multiset(s)
  {
    if s != [] {
      ReverseKeepsElements(s[..|s| - 1]);
      assert s == s[..|s| - 1] + [s[|s| - 1]];
    }
  }
}
