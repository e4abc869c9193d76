/**
 * The `describe` command's loop over resource ids: fetch each resource's
 * metadata, keep its public attributes, and in the short format project
 * them onto five keys and flatten the author and creator lists into
 * `;`-separated strings. A failure for one id is reported and the loop goes
 * on with the next.
 */
module Describe {
  import opened Wrappers
  import opened Text
  import opened Remote
  import opened Session

  /** The keys the short format keeps, in the order it looks them up. */
  const ShortKeys: seq<string> := ["abstract", "authors", "creators", "date_created", "title"]

  /** Why describing one resource failed; the exception is printed and the loop continues. */
  datatype Failure =
    | MetadataUnavailable          // fetching the metadata raised
    | MissingKey(key: string)      // a short-format key is absent
    | AuthorsNotJoinable           // the authors are not a sequence of strings
    | CreatorsUnreadable           // a creator has no `name`, or a name is not a string

  /** The attributes whose names do not start with an underscore. */
  function Public(meta: Attrs): (d: Attrs)
    ensures forall k :: k in d <==> k in meta && !StartsWith(k, "_")
    ensures forall k :: k in d ==> d[k] == meta[k]
  {
    map k | k in meta && !StartsWith(k, "_") :: meta[k]
  }

  /** The position of the first key absent from `d`, or `|keys|` when all are present. */
  function FirstAbsent(keys: seq<string>, d: Attrs): (n: nat)
    ensures n <= |keys|
    ensures forall i :: 0 <= i < n ==> keys[i] in d
    ensures n < |keys| ==> keys[n] !in d
  {
    if keys == [] || keys[0] !in d then 0 else 1 + FirstAbsent(keys[1..], d)
  }

  /** The short projection: the five keys, or the first of them that is missing. */
  function Project(d: Attrs): Result<Attrs, Failure> {
    var n := FirstAbsent(ShortKeys, d);
    if n < |ShortKeys| then Err(MissingKey(ShortKeys[n]))
    else Ok(map k | k in ShortKeys :: d[k])
  }

  // ---------------------------------------------------------------------------
  // Python's view of a metadata value
  // ---------------------------------------------------------------------------

  /** The classes a metadata value can have, and `type`, the class of classes. */
  datatype PyType = StrType | IntType | NoneType | ListType | DictType | TypeType

  /** `type(v)`: a metadata value is never itself a class, so its type is never `type`. */
  function TypeOf(v: Value): (t: PyType)
    ensures t != TypeType
  {
    match v
    case Str(_) => StrType
    case Int(_) => IntType
    case Null => NoneType
    case List(_) => ListType
    case Dict(_) => DictType
  }

  /** `type(str)`: the class of the class `str`, which is `type`. */
  const TypeOfStrClass := TypeType

  /**
   * What iterating over a value yields: a list its items, a string its
   * characters, an empty dictionary nothing. None when iterating raises (a
   * number or None) or when the order is not determined (a non-empty
   * dictionary, whose keys come in insertion order).
   */
  function Iterate(v: Value): Option<seq<Value>> {
    match v
    case List(items) => Some(items)
    case Str(s) => Some(seq(|s|, i requires 0 <= i < |s| => Str([s[i]])))
    case Dict(fields) => if fields == map[] then Some([]) else None
    case _ => None
  }

  /** The strings of a sequence of string values; None when one is not a string. */
  function Strings(xs: seq<Value>): (r: Option<seq<string>>)
    ensures r.Some? ==> |r.value| == |xs| && forall i :: 0 <= i < |xs| ==> xs[i] == Str(r.value[i])
    ensures r.None? ==> exists i :: 0 <= i < |xs| && !xs[i].Str?
  {
    if forall i :: 0 <= i < |xs| ==> xs[i].Str? then Some(seq(|xs|, i requires 0 <= i < |xs| => xs[i].s))
    else None
  }

  /** `';'.join(v)`: the strings `v` yields, separated by `;`. */
  function JoinAuthors(v: Value): Option<string> {
    var items := Iterate(v);
    if items.None? then None
    else
      var names := Strings(items.value);
      if names.None? then None else Some(Join(names.value, ";"))
  }

  /** `creator['name']` succeeds: the creator is a dictionary with a name. */
  predicate HasName(creator: Value) {
    creator.Dict? && "name" in creator.fields
  }

  /** The `name` of each creator, in order; None when one has none. */
  function CreatorNames(creators: seq<Value>): (r: Option<seq<Value>>)
    ensures r.Some? ==> |r.value| == |creators|
    ensures r.Some? <==> forall i :: 0 <= i < |creators| ==> HasName(creators[i])
    ensures r.Some? ==> forall i :: 0 <= i < |creators| ==> r.value[i] == creators[i].fields["name"]
  {
    if forall i :: 0 <= i < |creators| ==> HasName(creators[i])
    then Some(seq(|creators|, i requires 0 <= i < |creators| => creators[i].fields["name"]))
    else None
  }

  /** The creator names joined with `;`. */
  function JoinCreators(v: Value): Option<string> {
    var items := Iterate(v);
    if items.None? then None
    else
      var names := CreatorNames(items.value);
      if names.None? then None
      else
        var strings := Strings(names.value);
        if strings.None? then None else Some(Join(strings.value, ";"))
  }

  /**
   * The short format of a resource's public attributes: the five keys, with
   * the authors and the creators' names each flattened into one
   * `;`-separated string and every other value as it was.
   */
  function ShortForm(d: Attrs): Result<Attrs, Failure> {
    match Project(d)
    case Err(e) => Err(e)
    case Ok(p) =>
      var authors := JoinAuthors(p["authors"]);
      if authors.None? then Err(AuthorsNotJoinable)
      else
        var creators := JoinCreators(p["creators"]);
        if creators.None? then Err(CreatorsUnreadable)
        else Ok(p["authors" := Str(authors.value)]["creators" := Str(creators.value)])
  }

  /**
   * The short-format reshaping: project onto the five keys, run the
   * string-cleaning loop (whose type test never holds), join the authors,
   * then collect the creators' names in a loop and join them.
   */
  method Shorten(d: Attrs) returns (r: Result<Attrs, Failure>)
    ensures r == ShortForm(d)
  {
    var projected := Project(d);
    if projected.Err? {
      return Err(projected.error);
    }
    var m := projected.value;
    for i := 0 to |ShortKeys|
    {
      var v := m[ShortKeys[i]];
      if TypeOf(v) == TypeOfStrClass {
        // the newline removal would go here; a value's type is never `type`
        assert false;
      }
    }
    var authors := JoinAuthors(m["authors"]);
    if authors.None? {
      return Err(AuthorsNotJoinable);
    }
    m := m["authors" := Str(authors.value)];
    var creators := Iterate(m["creators"]);
    if creators.None? {
      return Err(CreatorsUnreadable);
    }
    var items := creators.value;
    var values: seq<Value> := [];
    for i := 0 to |items|
      invariant forall j :: 0 <= j < i ==> HasName(items[j])
      invariant values == seq(i, j requires 0 <= j < i => items[j].fields["name"])
    {
      var creator := items[i];
      if !HasName(creator) {
        return Err(CreatorsUnreadable);
      }
      values := values + [creator.fields["name"]];
    }
    var names := Strings(values);
    if names.None? {
      return Err(CreatorsUnreadable);
    }
    r := Ok(m["creators" := Str(Join(names.value, ";"))]);
  }

  /** Describing one resource: its public attributes, reshaped unless the long format is asked for. */
  function DescribeOne(meta: Option<Attrs>, long: bool): Result<Attrs, Failure> {
    if meta.None? then Err(MetadataUnavailable)
    else if long then Ok(Public(meta.value))
    else ShortForm(Public(meta.value))
  }

  /**
   * The loop of `describe`: one result per resource id, in input order; a
   * failure for one id is recorded and does not stop the others.
   */
  method Describe(session: HydroShare, ids: seq<string>, long: bool, service: Service)
    returns (results: seq<Result<Attrs, Failure>>)
    ensures |results| == |ids|
    ensures forall i :: 0 <= i < |ids| ==> results[i] == DescribeOne(session.Metadata(service, ids[i]), long)
  {
    results := [];
    for i := 0 to |ids|
      invariant |results| == i
      invariant forall j :: 0 <= j < i ==> results[j] == DescribeOne(session.Metadata(service, ids[j]), long)
    {
      var meta := session.Metadata(service, ids[i]);
      var result: Result<Attrs, Failure>;
      if meta.None? {
        result := Err(MetadataUnavailable);
      } else {
        var d := Public(meta.value);
        if long {
          result := Ok(d);
        } else {
          result := Shorten(d);
        }
      }
      results := results + [result];
    }
  }

  // ---------------------------------------------------------------------------
  // Properties of the short format
  // ---------------------------------------------------------------------------

  /**
   * The short format fails with a missing key exactly when one of the five
   * keys is absent, naming the first absent one; when it succeeds it has
   * exactly the five keys.
   */
  lemma ShortFormKeys(d: Attrs)
    ensures (exists k :: k in ShortKeys && k !in d) <==> ShortForm(d).Err? && ShortForm(d).error.MissingKey?
    ensures ShortForm(d).Err? && ShortForm(d).error.MissingKey? ==>
      var k := ShortForm(d).error.key;
      && k in ShortKeys && k !in d
      && forall i :: 0 <= i < |ShortKeys| && ShortKeys[i] == k ==> forall j :: 0 <= j < i ==> ShortKeys[j] in d
    ensures ShortForm(d).Ok? ==> ShortForm(d).value.Keys == set k | k in ShortKeys
  {
    var n := FirstAbsent(ShortKeys, d);
    if n == |ShortKeys| {
      assert forall k :: k in ShortKeys ==> k in d;
    } else {
      assert ShortKeys[n] in ShortKeys && ShortKeys[n] !in d;
      forall i | 0 <= i < |ShortKeys| && ShortKeys[i] == ShortKeys[n]
        ensures i == n
      {
      }
    }
  }

  /**
   * The cleaning step changes nothing: the abstract, the creation date and
   * the title come out exactly as they went in.
   */
  lemma ShortFormKeepsValues(d: Attrs)
    ensures ShortForm(d).Ok? ==>
      && ShortForm(d).value["abstract"] == d["abstract"]
      && ShortForm(d).value["date_created"] == d["date_created"]
      && ShortForm(d).value["title"] == d["title"]
  {
  }

  /**
   * Authors given as a list of names without `;` are joined in their
   * original order: splitting the joined string on `;` gives them back.
   */
  lemma AuthorsRoundTrip(d: Attrs, names: seq<string>)
    requires ShortForm(d).Ok?
    requires "authors" in d && d["authors"] == List(seq(|names|, i requires 0 <= i < |names| => Str(names[i])))
    requires |names| >= 1 && forall x :: x in names ==> ';' !in x
    ensures ShortForm(d).value["authors"].Str?
    ensures Split(ShortForm(d).value["authors"].s, ';') == names
  {
    var p := Project(d).value;
    var items := seq(|names|, i requires 0 <= i < |names| => Str(names[i]));
    assert forall i :: 0 <= i < |items| ==> items[i].Str? && items[i].s == names[i];
    assert seq(|items|, i requires 0 <= i < |items| => items[i].s) == names;
    assert Strings(items) == Some(names);
    SplitJoin(names, ';');
  }

  /**
   * Creators given as dictionaries whose names have no `;` are reduced to
   * their names, in order: splitting the joined string on `;` gives them back.
   */
  lemma CreatorsRoundTrip(d: Attrs, creators: seq<map<string, Value>>, names: seq<string>)
    requires ShortForm(d).Ok?
    requires |creators| == |names| >= 1
    requires forall i :: 0 <= i < |creators| ==> "name" in creators[i] && creators[i]["name"] == Str(names[i])
    requires "creators" in d && d["creators"] == List(seq(|creators|, i requires 0 <= i < |creators| => Dict(creators[i])))
    requires forall x :: x in names ==> ';' !in x
    ensures ShortForm(d).value["creators"].Str?
    ensures Split(ShortForm(d).value["creators"].s, ';') == names
  {
    var items := seq(|creators|, i requires 0 <= i < |creators| => Dict(creators[i]));
    var values := seq(|creators|, i requires 0 <= i < |creators| => Str(names[i]));
    assert forall i :: 0 <= i < |items| ==> HasName(items[i]) && items[i].fields["name"] == values[i];
    assert seq(|items|, i requires 0 <= i < |items| => items[i].fields["name"]) == values;
    assert CreatorNames(items) == Some(values);
    assert forall i :: 0 <= i < |values| ==> values[i].Str? && values[i].s == names[i];
    assert seq(|values|, i requires 0 <= i < |values| => values[i].s) == names;
    assert Strings(values) == Some(names);
    SplitJoin(names, ';');
  }

  /** The long format keeps every attribute whose name does not start with an underscore, unchanged. */
  lemma LongFormIsPublic(meta: Attrs)
    ensures DescribeOne(Some(meta), true).Ok?
    ensures forall k :: k in DescribeOne(Some(meta), true).value <==> k in meta && !StartsWith(k, "_")
  {
  }
}
