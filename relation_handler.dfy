/**
 * The relation resolver: turns the relation keys of a page into frontmatter lines, looking up
 * each relation's descriptor (`STRelation`) and each option's name (`STRelationOption`) in the
 * corpus, decoding legacy timestamps and deciding which values become Obsidian links.
 */
module RelationHandling {
  import opened Wrappers
  import opened PyText
  import opened Calendar
  import opened Corpus

  /** The settings the handler reads from the configuration. */
  datatype Config = Config(decodeTimestamps: bool, ignoredProperties: seq<string>, linkMode: string)

  /** An `STRelation` object describing the relation `key`. */
  predicate IsRelationFor(obj: CorpusObject, key: string)
  {
    HasType(obj, "STRelation") && ValueEq(Get(obj.details, "relationKey"), One(Str(key)))
  }

  /** An `STRelationOption` object whose id equals `v`. */
  predicate IsOptionFor(obj: CorpusObject, v: Scalar)
  {
    HasType(obj, "STRelationOption") && ValueEq(Get(obj.details, "id"), One(v))
  }

  /** The position of the first descriptor of `key` at or after `i`. */
  function FirstRelation(corpus: seq<CorpusObject>, key: string, i: nat): (r: Option<nat>)
    requires i <= |corpus|
    ensures r.Some? ==> i <= r.value < |corpus| && IsRelationFor(corpus[r.value], key)
    ensures r.Some? ==> forall j :: i <= j < r.value ==> !IsRelationFor(corpus[j], key)
    ensures r.None? ==> forall j :: i <= j < |corpus| ==> !IsRelationFor(corpus[j], key)
    decreases |corpus| - i
  {
    if i == |corpus| then None
    else if IsRelationFor(corpus[i], key) then Some(i)
    else FirstRelation(corpus, key, i + 1)
  }

  /** The position of the first option with id `v` at or after `i`. */
  function FirstOption(corpus: seq<CorpusObject>, v: Scalar, i: nat): (r: Option<nat>)
    requires i <= |corpus|
    ensures r.Some? ==> i <= r.value < |corpus| && IsOptionFor(corpus[r.value], v)
    ensures r.Some? ==> forall j :: i <= j < r.value ==> !IsOptionFor(corpus[j], v)
    ensures r.None? ==> forall j :: i <= j < |corpus| ==> !IsOptionFor(corpus[j], v)
    decreases |corpus| - i
  {
    if i == |corpus| then None
    else if IsOptionFor(corpus[i], v) then Some(i)
    else FirstOption(corpus, v, i + 1)
  }

  /** What `get_relation_info` returns: the details of the first descriptor, or `{}`. */
  function RelationInfo(corpus: seq<CorpusObject>, key: string): map<string, Value>
  {
    match FirstRelation(corpus, key, 0)
    case Some(j) => corpus[j].details
    case None => map[]
  }

  /** `relation_info.get('name', key)`. */
  function RelationName(corpus: seq<CorpusObject>, key: string): Value
  {
    var info := RelationInfo(corpus, key);
    if "name" in info then info["name"] else One(Str(key))
  }

  /** The cache after a lookup of `key`: a hit is stored, a miss leaves it alone. */
  function CacheStep(cache: map<string, map<string, Value>>, corpus: seq<CorpusObject>, key: string): map<string, map<string, Value>>
  {
    match FirstRelation(corpus, key, 0)
    case Some(j) => cache[key := corpus[j].details]
    case None => cache
  }

  /** `relation_has_options`: decided by the first descriptor, false iff its format equals 0. */
  predicate HasOptions(corpus: seq<CorpusObject>, key: string)
  {
    match FirstRelation(corpus, key, 0)
    case Some(j) => !ValueEq(Get(corpus[j].details, "relationFormat"), One(Int(0)))
    case None => false
  }

  /** `str(get_relation_option_name(v))`: the first matching option's `name` (its id when it
      has none), or `str(v)` when no option matches. */
  function OptionName(corpus: seq<CorpusObject>, v: Scalar): string
  {
    match FirstOption(corpus, v, 0)
    case Some(j) => PyStrValue(if "name" in corpus[j].details then corpus[j].details["name"] else One(v))
    case None => PyStr(v)
  }

  /** The reference date of the legacy timestamps. */
  const Reference := Date(2001, 1, 1)

  /** The date a legacy timestamp `days` after the reference stands for: that many days after
      2001-01-01, 31 years earlier, one day earlier. `None` when a step raises. */
  function LegacyDate(days: int): (r: Option<Date>)
    ensures r.Some? ==> ValidDate(r.value)
  {
    match AddDays(Reference, days)
    case None => None
    case Some(d) =>
      AddDaysValid(Reference, days);
      match ReplaceYear(d, d.year - 31)
      case None => None
      case Some(e) =>
        AddDaysValid(e, -1);
        AddDays(e, -1)
  }

  /** The integers whose legacy decoding is attempted: `str(v)` is ten characters long. */
  predicate LooksLikeTimestamp(v: Scalar)
  {
    v.Int? && |IntToString(v.i)| == 10
  }

  /** `convert_timestamp_if_applicable`: the formatted date and `True`, or the option name and `False`.
      Python's `//` by a positive divisor is Dafny's `/`. */
  function ConvertTimestamp(corpus: seq<CorpusObject>, decode: bool, v: Scalar): (string, bool)
  {
    if decode && LooksLikeTimestamp(v) && LegacyDate(v.i / 86400).Some? then
      (FormatDate(LegacyDate(v.i / 86400).value), true)
    else (OptionName(corpus, v), false)
  }

  /** Whether a non-date value of relation `key` is written as a link. */
  predicate Wraps(corpus: seq<CorpusObject>, cfg: Config, key: string)
  {
    cfg.linkMode == "all" || (cfg.linkMode == "select" && HasOptions(corpus, key))
  }

  /** `format_relation_value`. */
  function FormatValue(corpus: seq<CorpusObject>, cfg: Config, v: Scalar, key: string): string
  {
    var (converted, isDate) := ConvertTimestamp(corpus, cfg.decodeTimestamps, v);
    if isDate then converted
    else if Wraps(corpus, cfg, key) then "\"[[" + converted + "]]\""
    else converted
  }

  function FormatAll(corpus: seq<CorpusObject>, cfg: Config, xs: seq<Scalar>, key: string): (r: seq<string>)
    ensures |r| == |xs|
    ensures forall k :: 0 <= k < |xs| ==> r[k] == FormatValue(corpus, cfg, xs[k], key)
  {
    if |xs| == 0 then [] else [FormatValue(corpus, cfg, xs[0], key)] + FormatAll(corpus, cfg, xs[1..], key)
  }

  /** The formatted values of one present relation: a list element by element, a boolean as
      `Yes`/`No`, anything else as one formatted value. */
  function ValueStrings(corpus: seq<CorpusObject>, cfg: Config, value: Value, key: string): seq<string>
  {
    match value
    case List(xs) => FormatAll(corpus, cfg, xs, key)
    case One(x) => if x.Bool? then [if x.b then "Yes" else "No"] else [FormatValue(corpus, cfg, x, key)]
  }

  /** One entry of the ordered `relations` dict. */
  datatype Entry = Entry(name: Scalar, values: seq<string>)

  /** The position of the entry whose name equals `name`, as a dict key compares. */
  function FindEntry(entries: seq<Entry>, name: Scalar): (r: Option<nat>)
    ensures r.Some? ==> r.value < |entries| && ScalarEq(entries[r.value].name, name)
    ensures r.Some? ==> forall j :: 0 <= j < r.value ==> !ScalarEq(entries[j].name, name)
    ensures r.None? ==> forall j :: 0 <= j < |entries| ==> !ScalarEq(entries[j].name, name)
  {
    if |entries| == 0 then None
    else if ScalarEq(entries[0].name, name) then Some(0)
    else
      var r := FindEntry(entries[1..], name);
      if r.Some? then Some(r.value + 1) else None
  }

  /** `relations[name] = values`: an existing key keeps its place and its original key object,
      a new key goes last. */
  function Assign(entries: seq<Entry>, name: Scalar, values: seq<string>): seq<Entry>
  {
    match FindEntry(entries, name)
    case Some(j) => entries[j := Entry(entries[j].name, values)]
    case None => entries + [Entry(name, values)]
  }

  /** The outcome of the first loop of `extract_relations`: the entries, the cache it leaves,
      and whether assigning an unhashable (list) name raised. */
  datatype Extraction = Extraction(entries: seq<Entry>, cache: map<string, map<string, Value>>, failed: bool)

  /** The relation keys `keys[i..]` collected into `entries`, with the cache as the lookups leave it. */
  function Collect(corpus: seq<CorpusObject>, cfg: Config, details: map<string, Value>, keys: seq<string>, i: nat,
                   entries: seq<Entry>, cache: map<string, map<string, Value>>): Extraction
    requires i <= |keys|
    decreases |keys| - i
  {
    if i == |keys| then Extraction(entries, cache, false)
    else
      var key := keys[i];
      if key in cfg.ignoredProperties then Collect(corpus, cfg, details, keys, i + 1, entries, cache)
      else
        var value := Get(details, key);
        var name := RelationName(corpus, key);
        var cache' := CacheStep(cache, corpus, key);
        if value == One(Null) then Collect(corpus, cfg, details, keys, i + 1, entries, cache')
        else if name.List? then Extraction(entries, cache', true)
        else Collect(corpus, cfg, details, keys, i + 1, Assign(entries, name.v, ValueStrings(corpus, cfg, value, key)), cache')
  }

  /** `" - v"` for each value, in order. */
  function Bullets(values: seq<string>): (r: seq<string>)
    ensures |r| == |values|
    ensures forall k :: 0 <= k < |values| ==> r[k] == " - " + values[k]
  {
    if |values| == 0 then [] else [" - " + values[0]] + Bullets(values[1..])
  }

  /** The lines of one entry: `Name: v` for a single value, otherwise `Name:` and a bullet per value. */
  function EntryLines(e: Entry): seq<string>
  {
    if |e.values| == 1 then [PyStr(e.name) + ": " + e.values[0]]
    else [PyStr(e.name) + ":"] + Bullets(e.values)
  }

  /** The second loop of `extract_relations`: every entry's lines, in order. */
  function Lines(entries: seq<Entry>): seq<string>
  {
    if |entries| == 0 then [] else EntryLines(entries[0]) + Lines(entries[1..])
  }

  /** What `extract_relations` returns for a page, or `None` when it raises. */
  function Relations(corpus: seq<CorpusObject>, cfg: Config, obj: CorpusObject): Option<seq<string>>
  {
    var x := Collect(corpus, cfg, obj.details, obj.relationLinks, 0, [], map[]);
    if x.failed then None else Some(Lines(x.entries))
  }

  /** Resolves relations against a fixed corpus, caching the descriptors it has found. */
  class RelationHandler {
    const corpus: seq<CorpusObject>
    const decodeTimestamps: bool
    const ignoredProperties: seq<string>
    const linkMode: string
    var relationCache: map<string, map<string, Value>>

    function Cfg(): Config
    {
      Config(decodeTimestamps, ignoredProperties, linkMode)
    }

    /** The cache holds only the details of the first descriptor of each key. */
    ghost predicate Valid()
      reads this
    {
      forall k :: k in relationCache ==>
        FirstRelation(corpus, k, 0).Some? && relationCache[k] == corpus[FirstRelation(corpus, k, 0).value].details
    }

    constructor(corpus: seq<CorpusObject>, decodeTimestamps: bool, ignoredProperties: seq<string>, linkMode: string)
      ensures this.corpus == corpus && this.decodeTimestamps == decodeTimestamps
      ensures this.ignoredProperties == ignoredProperties && this.linkMode == linkMode
      ensures relationCache == map[] && Valid()
    {
      this.corpus := corpus;
      this.decodeTimestamps := decodeTimestamps;
      this.ignoredProperties := ignoredProperties;
      this.linkMode := linkMode;
      relationCache := map[];
    }

    /** `get_relation_info`: answered from the cache on a hit, otherwise by a scan whose hit is cached. */
    method GetRelationInfo(key: string) returns (info: map<string, Value>)
      requires Valid()
      modifies this
      ensures Valid()
      ensures info == RelationInfo(corpus, key)
      ensures relationCache == CacheStep(old(relationCache), corpus, key)
    {
      if key in relationCache {
        assert relationCache[key := relationCache[key]] == relationCache;
        return relationCache[key];
      }
      for i := 0 to |corpus|
        invariant FirstRelation(corpus, key, i) == FirstRelation(corpus, key, 0)
        invariant relationCache == old(relationCache)
      {
        if IsRelationFor(corpus[i], key) {
          relationCache := relationCache[key := corpus[i].details];
          return relationCache[key];
        }
      }
      return map[];
    }

    /** `relation_has_options`. */
    method RelationHasOptions(key: string) returns (has: bool)
      ensures has == HasOptions(corpus, key)
    {
      for i := 0 to |corpus|
        invariant FirstRelation(corpus, key, i) == FirstRelation(corpus, key, 0)
      {
        if IsRelationFor(corpus[i], key) {
          return !ValueEq(Get(corpus[i].details, "relationFormat"), One(Int(0)));
        }
      }
      return false;
    }

    /** `get_relation_option_name`, with the result as `str()` renders it. */
    method GetRelationOptionName(v: Scalar) returns (name: string)
      ensures name == OptionName(corpus, v)
    {
      for i := 0 to |corpus|
        invariant FirstOption(corpus, v, i) == FirstOption(corpus, v, 0)
      {
        if IsOptionFor(corpus[i], v) {
          var details := corpus[i].details;
          return PyStrValue(if "name" in details then details["name"] else One(v));
        }
      }
      return PyStr(v);
    }

    /** `convert_timestamp_if_applicable`. */
    method ConvertTimestampIfApplicable(v: Scalar) returns (converted: string, isDate: bool)
      ensures (converted, isDate) == ConvertTimestamp(corpus, decodeTimestamps, v)
    {
      if decodeTimestamps && v.Int? && |IntToString(v.i)| == 10 {
        var result := LegacyDate(v.i / 86400);
        if result.Some? {
          return FormatDate(result.value), true;
        }
      }
      converted := GetRelationOptionName(v);
      isDate := false;
    }

    /** `format_relation_value`. */
    method FormatRelationValue(v: Scalar, key: string) returns (s: string)
      ensures s == FormatValue(corpus, Cfg(), v, key)
    {
      var converted, isDate := ConvertTimestampIfApplicable(v);
      if isDate {
        return converted;
      }
      if linkMode == "all" {
        return "\"[[" + converted + "]]\"";
      }
      if linkMode == "select" {
        var has := RelationHasOptions(key);
        if has {
          return "\"[[" + converted + "]]\"";
        }
      }
      return converted;
    }

    /** The list comprehension of `extract_relations`: every item formatted, in order. */
    method FormatRelationValues(xs: seq<Scalar>, key: string) returns (r: seq<string>)
      ensures r == FormatAll(corpus, Cfg(), xs, key)
    {
      r := [];
      for k := 0 to |xs|
        invariant |r| == k
        invariant forall j :: 0 <= j < k ==> r[j] == FormatValue(corpus, Cfg(), xs[j], key)
      {
        var s := FormatRelationValue(xs[k], key);
        r := r + [s];
      }
    }

    /** The values of a present relation, as the first loop of `extract_relations` stores them. */
    method RelationStrings(value: Value, key: string) returns (strings: seq<string>)
      ensures strings == ValueStrings(corpus, Cfg(), value, key)
    {
      if value.List? {
        strings := FormatRelationValues(value.items, key);
      } else if value.v.Bool? {
        strings := [if value.v.b then "Yes" else "No"];
      } else {
        var s := FormatRelationValue(value.v, key);
        strings := [s];
      }
    }

    /** One turn of the first loop of `extract_relations`: the entries after key `keys[i]`, or
        `stop` when its relation name is a list. */
    method CollectKey(details: map<string, Value>, keys: seq<string>, i: nat, entries: seq<Entry>)
      returns (next: seq<Entry>, stop: bool)
      requires Valid() && i < |keys|
      modifies this
      ensures Valid()
      ensures var x := Collect(corpus, Cfg(), details, keys, i, entries, old(relationCache));
        if stop then x == Extraction(entries, relationCache, true)
        else x == Collect(corpus, Cfg(), details, keys, i + 1, next, relationCache)
    {
      var key := keys[i];
      CollectStep(corpus, Cfg(), details, keys, i, entries, relationCache);
      next, stop := entries, false;
      if key !in ignoredProperties {
        var value := Get(details, key);
        var info := GetRelationInfo(key);
        var name := if "name" in info then info["name"] else One(Str(key));
        if value != One(Null) {
          if name.List? {
            return entries, true;
          }
          var strings := RelationStrings(value, key);
          next := Assign(entries, name.v, strings);
        }
      }
    }

    /** `extract_relations`; `failed` reports the `TypeError` a list-valued relation name raises. */
    method ExtractRelations(obj: CorpusObject) returns (lines: seq<string>, failed: bool)
      requires Valid()
      modifies this
      ensures Valid()
      ensures var x := Collect(corpus, Cfg(), obj.details, obj.relationLinks, 0, [], old(relationCache));
        relationCache == x.cache && failed == x.failed && lines == (if x.failed then [] else Lines(x.entries))
    {
      var keys := obj.relationLinks;
      var entries: seq<Entry> := [];
      ghost var whole := Collect(corpus, Cfg(), obj.details, keys, 0, [], relationCache);
      var i := 0;
      while i < |keys|
        invariant 0 <= i <= |keys| && Valid()
        invariant Collect(corpus, Cfg(), obj.details, keys, i, entries, relationCache) == whole
      {
        var next, stop := CollectKey(obj.details, keys, i, entries);
        if stop {
          return [], true;
        }
        entries := next;
        i := i + 1;
      }
      lines := FormatRelations(entries);
      failed := false;
    }
  }

  /** One step of `Collect`. */
  lemma CollectStep(corpus: seq<CorpusObject>, cfg: Config, details: map<string, Value>, keys: seq<string>, i: nat,
                    entries: seq<Entry>, cache: map<string, map<string, Value>>)
    requires i < |keys|
    ensures var key := keys[i];
      Collect(corpus, cfg, details, keys, i, entries, cache) ==
        if key in cfg.ignoredProperties then Collect(corpus, cfg, details, keys, i + 1, entries, cache)
        else
          var value := Get(details, key);
          var name := RelationName(corpus, key);
          var cache' := CacheStep(cache, corpus, key);
          if value == One(Null) then Collect(corpus, cfg, details, keys, i + 1, entries, cache')
          else if name.List? then Extraction(entries, cache', true)
          else Collect(corpus, cfg, details, keys, i + 1, Assign(entries, name.v, ValueStrings(corpus, cfg, value, key)), cache')
  {
  }

  /** The bullet lines of a multi-valued entry. */
  method FormatBullets(values: seq<string>) returns (lines: seq<string>)
    ensures lines == Bullets(values)
  {
    lines := [];
    for k := 0 to |values|
      invariant lines == Bullets(values[..k])
    {
      BulletsSnoc(values[..k], values[k]);
      assert values[..k + 1] == values[..k] + [values[k]];
      lines := lines + [" - " + values[k]];
    }
    assert values[..|values|] == values;
  }

  /** The lines of one entry. */
  method FormatEntry(e: Entry) returns (lines: seq<string>)
    ensures lines == EntryLines(e)
  {
    if |e.values| == 1 {
      lines := [PyStr(e.name) + ": " + e.values[0]];
    } else {
      var bullets := FormatBullets(e.values);
      lines := [PyStr(e.name) + ":"] + bullets;
    }
  }

  /** The second loop of `extract_relations`: `Name: v` or `Name:` and bullets, entry by entry. */
  method FormatRelations(entries: seq<Entry>) returns (lines: seq<string>)
    ensures lines == Lines(entries)
  {
    lines := [];
    assert lines + Lines(entries[0..]) == Lines(entries) by {
      assert entries[0..] == entries;
    }
    for j := 0 to |entries|
      invariant lines + Lines(entries[j..]) == Lines(entries)
    {
      var more := FormatEntry(entries[j]);
      LinesStep(entries, j, lines, more);
      lines := lines + more;
    }
    assert Lines(entries[|entries|..]) == [] by {
      assert entries[|entries|..] == [];
    }
  }

  /** One turn of the formatting loop keeps the lines written so far plus the rest equal to the whole. */
  lemma LinesStep(entries: seq<Entry>, j: nat, lines: seq<string>, more: seq<string>)
    requires j < |entries| && more == EntryLines(entries[j])
    requires lines + Lines(entries[j..]) == Lines(entries)
    ensures (lines + more) + Lines(entries[j + 1..]) == Lines(entries)
  {
    LinesFrom(entries, j);
    AppendAssoc(lines, more, Lines(entries[j + 1..]));
  }

  /** The lines from entry `j` on: that entry's, then the rest. */
  lemma LinesFrom(entries: seq<Entry>, j: nat)
    requires j < |entries|
    ensures Lines(entries[j..]) == EntryLines(entries[j]) + Lines(entries[j + 1..])
  {
    assert entries[j..][1..] == entries[j + 1..];
  }

  lemma AppendAssoc<T>(a: seq<T>, b: seq<T>, c: seq<T>)
    ensures a + b + c == a + (b + c)
  {
  }

  lemma BulletsSnoc(values: seq<string>, v: string)
    ensures Bullets(values + [v]) == Bullets(values) + [" - " + v]
  {
  }

  // ----- the `relations` dict -----

  /** `relations.get(name)`. */
  function Lookup(entries: seq<Entry>, name: Scalar): Option<seq<string>>
  {
    match FindEntry(entries, name)
    case Some(j) => Some(entries[j].values)
    case None => None
  }

  /** No two entries have names Python considers equal, as for the keys of a dict. */
  predicate DistinctNames(entries: seq<Entry>)
  {
    forall i, j :: 0 <= i < j < |entries| ==> !ScalarEq(entries[i].name, entries[j].name)
  }

  /** Replacing an entry's values leaves every lookup where it was. */
  lemma {:induction false} FindEntryUpdate(a: seq<Entry>, j: nat, values: seq<string>, name: Scalar)
    requires j < |a|
    ensures FindEntry(a[j := Entry(a[j].name, values)], name) == FindEntry(a, name)
  {
    var b := a[j := Entry(a[j].name, values)];
    assert b[0].name == a[0].name;
    if j == 0 {
      assert b[1..] == a[1..];
    } else {
      assert b[1..] == a[1..][j - 1 := Entry(a[1..][j - 1].name, values)];
      FindEntryUpdate(a[1..], j - 1, values, name);
    }
  }

  /** An appended entry is found only when no earlier one matches. */
  lemma {:induction false} FindEntryAppend(a: seq<Entry>, e: Entry, name: Scalar)
    ensures FindEntry(a + [e], name) ==
      if FindEntry(a, name).Some? then FindEntry(a, name) else if ScalarEq(e.name, name) then Some(|a|) else None
  {
    if |a| == 0 {
      assert a + [e] == [e];
    } else {
      assert (a + [e])[1..] == a[1..] + [e];
      FindEntryAppend(a[1..], e, name);
    }
  }

  /** Names Python considers equal find the same entry. */
  lemma FindEntryEquivalent(a: seq<Entry>, name: Scalar, other: Scalar)
    requires ScalarEq(name, other)
    ensures FindEntry(a, name) == FindEntry(a, other)
  {
    forall k | 0 <= k < |a| ensures ScalarEq(a[k].name, name) <==> ScalarEq(a[k].name, other) {
      ScalarEqEquivalence(a[k].name, name, other);
      ScalarEqEquivalence(a[k].name, other, name);
      ScalarEqEquivalence(name, other, name);
    }
    if FindEntry(a, name).Some? {
      assert FindEntry(a, other).Some?;
    }
  }

  /** `Assign` is dict assignment: afterwards `name`, and every key equal to it, reads `values`;
      every other key reads what it read before. */
  lemma AssignLookup(entries: seq<Entry>, name: Scalar, values: seq<string>, other: Scalar)
    ensures Lookup(Assign(entries, name, values), other) ==
      if ScalarEq(name, other) then Some(values) else Lookup(entries, other)
  {
    var r := Assign(entries, name, values);
    if ScalarEq(name, other) {
      FindEntryEquivalent(entries, name, other);
    }
    match FindEntry(entries, name)
    case Some(j) =>
      assert r == entries[j := Entry(entries[j].name, values)];
      FindEntryUpdate(entries, j, values, other);
      if !ScalarEq(name, other) && FindEntry(entries, other).Some? {
        var i := FindEntry(entries, other).value;
        ScalarEqEquivalence(entries[j].name, name, other);
        ScalarEqEquivalence(name, entries[j].name, other);
        assert i != j;
        assert r[i] == entries[i];
      }
    case None =>
      assert r == entries + [Entry(name, values)];
      FindEntryAppend(entries, Entry(name, values), other);
      if FindEntry(entries, other).Some? {
        assert r[FindEntry(entries, other).value] == entries[FindEntry(entries, other).value];
      }
  }

  /** Assignment keeps the keys distinct. */
  lemma AssignDistinct(entries: seq<Entry>, name: Scalar, values: seq<string>)
    requires DistinctNames(entries)
    ensures DistinctNames(Assign(entries, name, values))
  {
    var r := Assign(entries, name, values);
    if FindEntry(entries, name).None? {
      forall i | 0 <= i < |entries| ensures !ScalarEq(r[i].name, r[|entries|].name) {
        ScalarEqEquivalence(r[i].name, name, r[i].name);
      }
    }
  }

  /** Two relations with the same display name: the later values win, at the first one's
      position and under the first one's key object. */
  lemma AssignTwice(entries: seq<Entry>, name1: Scalar, values1: seq<string>, name2: Scalar, values2: seq<string>)
    requires ScalarEq(name1, name2)
    ensures Assign(Assign(entries, name1, values1), name2, values2) == Assign(entries, name1, values2)
  {
    var r := Assign(entries, name1, values1);
    FindEntryEquivalent(entries, name1, name2);
    match FindEntry(entries, name1)
    case Some(j) =>
      assert r == entries[j := Entry(entries[j].name, values1)];
      FindEntryUpdate(entries, j, values1, name2);
      assert Assign(r, name2, values2) == r[j := Entry(entries[j].name, values2)];
      assert r[j := Entry(entries[j].name, values2)] == entries[j := Entry(entries[j].name, values2)];
    case None =>
      assert r == entries + [Entry(name1, values1)];
      FindEntryAppend(entries, Entry(name1, values1), name2);
      assert Assign(r, name2, values2) == r[|entries| := Entry(name1, values2)];
      assert r[|entries| := Entry(name1, values2)] == entries + [Entry(name1, values2)];
  }

  // ----- what the keys contribute -----

  /** The lines of consecutive entries are the lines of each, in order. */
  lemma {:induction false} LinesAppend(a: seq<Entry>, b: seq<Entry>)
    ensures Lines(a + b) == Lines(a) + Lines(b)
  {
    if |a| == 0 {
      assert a + b == b;
    } else {
      assert (a + b)[1..] == a[1..] + b;
      LinesAppend(a[1..], b);
    }
  }

  /** The result of the first loop, without the cache. */
  predicate SameOutcome(x: Extraction, y: Extraction)
  {
    x.entries == y.entries && x.failed == y.failed
  }

  /** A key that is ignored or has no value contributes nothing. */
  predicate Skipped(cfg: Config, details: map<string, Value>, key: string)
  {
    key in cfg.ignoredProperties || Get(details, key) == One(Null)
  }

  /** Where `key` sits at `p`, the keys after it are those of `keys` from `p` on, one further along. */
  lemma {:induction false} CollectAfterSkipped(corpus: seq<CorpusObject>, cfg: Config, details: map<string, Value>, keys: seq<string>,
                                              key: string, p: nat, j: nat, entries: seq<Entry>,
                                              cache1: map<string, map<string, Value>>, cache2: map<string, map<string, Value>>)
    requires p <= j <= |keys|
    ensures SameOutcome(Collect(corpus, cfg, details, keys[..p] + [key] + keys[p..], j + 1, entries, cache1),
                        Collect(corpus, cfg, details, keys, j, entries, cache2))
    decreases |keys| - j
  {
    var keys' := keys[..p] + [key] + keys[p..];
    if j < |keys| {
      assert keys'[j + 1] == keys[j];
      CollectStep(corpus, cfg, details, keys', j + 1, entries, cache1);
      CollectStep(corpus, cfg, details, keys, j, entries, cache2);
      var k := keys[j];
      if k in cfg.ignoredProperties {
        CollectAfterSkipped(corpus, cfg, details, keys, key, p, j + 1, entries, cache1, cache2);
      } else if Get(details, k) == One(Null) {
        CollectAfterSkipped(corpus, cfg, details, keys, key, p, j + 1, entries,
                            CacheStep(cache1, corpus, k), CacheStep(cache2, corpus, k));
      } else if !RelationName(corpus, k).List? {
        var updated := Assign(entries, RelationName(corpus, k).v, ValueStrings(corpus, cfg, Get(details, k), k));
        CollectAfterSkipped(corpus, cfg, details, keys, key, p, j + 1, updated,
                            CacheStep(cache1, corpus, k), CacheStep(cache2, corpus, k));
      }
    }
  }

  lemma {:induction false} CollectBeforeSkipped(corpus: seq<CorpusObject>, cfg: Config, details: map<string, Value>, keys: seq<string>,
                                               key: string, p: nat, i: nat, entries: seq<Entry>,
                                               cache1: map<string, map<string, Value>>, cache2: map<string, map<string, Value>>)
    requires i <= p <= |keys| && Skipped(cfg, details, key)
    ensures SameOutcome(Collect(corpus, cfg, details, keys[..p] + [key] + keys[p..], i, entries, cache1),
                        Collect(corpus, cfg, details, keys, i, entries, cache2))
    decreases p - i
  {
    var keys' := keys[..p] + [key] + keys[p..];
    CollectStep(corpus, cfg, details, keys', i, entries, cache1);
    if i == p {
      assert keys'[p] == key;
      CollectAfterSkipped(corpus, cfg, details, keys, key, p, p, entries, CacheStep(cache1, corpus, key), cache2);
      CollectAfterSkipped(corpus, cfg, details, keys, key, p, p, entries, cache1, cache2);
    } else {
      assert keys'[i] == keys[i];
      CollectStep(corpus, cfg, details, keys, i, entries, cache2);
      var k := keys[i];
      if k in cfg.ignoredProperties {
        CollectBeforeSkipped(corpus, cfg, details, keys, key, p, i + 1, entries, cache1, cache2);
      } else if Get(details, k) == One(Null) {
        CollectBeforeSkipped(corpus, cfg, details, keys, key, p, i + 1, entries,
                             CacheStep(cache1, corpus, k), CacheStep(cache2, corpus, k));
      } else if !RelationName(corpus, k).List? {
        var updated := Assign(entries, RelationName(corpus, k).v, ValueStrings(corpus, cfg, Get(details, k), k));
        CollectBeforeSkipped(corpus, cfg, details, keys, key, p, i + 1, updated,
                             CacheStep(cache1, corpus, k), CacheStep(cache2, corpus, k));
      }
    }
  }

  /** An ignored key, or one whose value is absent or `None`, can be dropped from or added to
      the relation links anywhere without changing the frontmatter lines. */
  lemma SkippedKeyContributesNothing(corpus: seq<CorpusObject>, cfg: Config, obj: CorpusObject, key: string, p: nat)
    requires p <= |obj.relationLinks| && Skipped(cfg, obj.details, key)
    ensures Relations(corpus, cfg, obj.(relationLinks := obj.relationLinks[..p] + [key] + obj.relationLinks[p..])) ==
            Relations(corpus, cfg, obj)
  {
    CollectBeforeSkipped(corpus, cfg, obj.details, obj.relationLinks, key, p, 0, [], map[], map[]);
  }

  /** The lines collected do not depend on what the cache held beforehand. */
  lemma {:induction false} CollectIgnoresCache(corpus: seq<CorpusObject>, cfg: Config, details: map<string, Value>, keys: seq<string>,
                                              i: nat, entries: seq<Entry>,
                                              cache1: map<string, map<string, Value>>, cache2: map<string, map<string, Value>>)
    requires i <= |keys|
    ensures SameOutcome(Collect(corpus, cfg, details, keys, i, entries, cache1), Collect(corpus, cfg, details, keys, i, entries, cache2))
    decreases |keys| - i
  {
    if i < |keys| {
      CollectStep(corpus, cfg, details, keys, i, entries, cache1);
      CollectStep(corpus, cfg, details, keys, i, entries, cache2);
      var k := keys[i];
      if k in cfg.ignoredProperties {
        CollectIgnoresCache(corpus, cfg, details, keys, i + 1, entries, cache1, cache2);
      } else if Get(details, k) == One(Null) {
        CollectIgnoresCache(corpus, cfg, details, keys, i + 1, entries, CacheStep(cache1, corpus, k), CacheStep(cache2, corpus, k));
      } else if !RelationName(corpus, k).List? {
        var updated := Assign(entries, RelationName(corpus, k).v, ValueStrings(corpus, cfg, Get(details, k), k));
        CollectIgnoresCache(corpus, cfg, details, keys, i + 1, updated, CacheStep(cache1, corpus, k), CacheStep(cache2, corpus, k));
      }
    }
  }

  /** A line holding a colon, or starting with a space, is not the `---` delimiter. */
  lemma ColonLineNotDelimiter(a: string, b: string)
    ensures a + ":" + b != "---" && " - " + b != "---"
  {
    var s := a + ":" + b;
    assert s[|a|] == ':';
    assert (" - " + b)[0] == ' ';
  }

  /** No relation line is `---`, so the frontmatter ends where the relations do. */
  lemma {:induction false} LinesNotDelimiter(entries: seq<Entry>)
    ensures forall k :: 0 <= k < |Lines(entries)| ==> Lines(entries)[k] != "---"
  {
    if |entries| > 0 {
      var e := entries[0];
      LinesNotDelimiter(entries[1..]);
      ColonLineNotDelimiter(PyStr(e.name), if |e.values| == 1 then " " + e.values[0] else "");
      assert PyStr(e.name) + ": " + (if |e.values| == 1 then e.values[0] else "") ==
        PyStr(e.name) + ":" + (" " + if |e.values| == 1 then e.values[0] else "");
      forall k | 0 <= k < |e.values| ensures Bullets(e.values)[k] != "---" {
        ColonLineNotDelimiter("", e.values[k]);
      }
      assert forall k :: 0 <= k < |EntryLines(e)| ==> EntryLines(e)[k] != "---";
    }
  }

  // ----- legacy timestamps -----

  /** A ten-character integer is between 11575 days before and 115740 days after the reference. */
  lemma TimestampDays(v: int)
    requires |IntToString(v)| == 10
    ensures -11575 <= v / 86400 <= 115740
  {
    TenCharacters(v);
  }

  /** Whether a step of the date arithmetic lands on the 29th of February. */
  predicate LeapDay(d: Option<Date>)
  {
    d.Some? && d.value.month == 2 && d.value.day == 29
  }

  /** Over the days a ten-character timestamp can give, the decoding fails exactly when the
      shifted date is a 29th of February; otherwise it is the day before the same calendar date
      31 years earlier, in a four-digit year. */
  lemma LegacyDateDecoded(days: int)
    requires -11575 <= days <= 115740
    ensures AddDays(Reference, days).Some?
    ensures LegacyDate(days).None? <==> LeapDay(AddDays(Reference, days))
    ensures LegacyDate(days).Some? ==>
      var d := AddDays(Reference, days).value;
      ValidDate(Date(d.year - 31, d.month, d.day)) &&
      ToOrdinal(LegacyDate(days).value) + 1 == ToOrdinal(Date(d.year - 31, d.month, d.day)) &&
      LegacyDate(days).value.year >= 1000
  {
    assert DaysBeforeYear(2001) == 730485;
    assert ToOrdinal(Reference) == 730486;
    AddDaysCorrect(Reference, days);
    var d := AddDays(Reference, days).value;
    assert DaysBeforeYear(1969) == 718797;
    YearAtLeast(d, 1969);
    ReplaceYearBack31(d);
    if ReplaceYear(d, d.year - 31).Some? {
      var e := Date(d.year - 31, d.month, d.day);
      ToOrdinalRange(e);
      DaysBeforeYearMonotone(1001, e.year);
      AddDaysCorrect(e, -1);
      assert LegacyDate(days) == AddDays(e, -1);
      YearAtLeast(LegacyDate(days).value, 1000);
    }
  }

  /** `convert_timestamp_if_applicable` decodes exactly the ten-character integers, when decoding
      is on, whose shifted date is not a 29th of February; a decoded value is a `YYYY-MM-DD`
      string, any other value is looked up as an option. */
  lemma TimestampDecoding(corpus: seq<CorpusObject>, decode: bool, v: Scalar)
    ensures var (s, isDate) := ConvertTimestamp(corpus, decode, v);
      (isDate <==> decode && LooksLikeTimestamp(v) && !LeapDay(AddDays(Reference, v.i / 86400))) &&
      (isDate ==> |s| == 10 && s[4] == '-' && s[7] == '-') &&
      (!isDate ==> s == OptionName(corpus, v))
  {
    if decode && LooksLikeTimestamp(v) {
      TimestampDays(v.i);
      LegacyDateDecoded(v.i / 86400);
      if LegacyDate(v.i / 86400).Some? {
        FormatDateShape(LegacyDate(v.i / 86400).value);
      }
    }
  }

  /** 11574 days after the reference is 2032-09-09; 31 years and one day earlier is 2001-09-08. */
  lemma LegacyDateExample()
    ensures LegacyDate(11574) == Some(Date(2001, 9, 8))
  {
    assert DaysBeforeYear(2001) == 730485;
    assert ToOrdinal(Reference) == 730486;
    assert DaysBeforeYear(2032) == 741807;
    assert ToOrdinal(Date(2032, 9, 9)) == 742060;
    OrdinalRoundTrip(Date(2032, 9, 9));
    assert AddDays(Reference, 11574) == Some(Date(2032, 9, 9));
    assert ToOrdinal(Date(2001, 9, 9)) == 730737;
    assert ToOrdinal(Date(2001, 9, 8)) == 730736;
    OrdinalRoundTrip(Date(2001, 9, 8));
    assert AddDays(Date(2001, 9, 9), -1) == Some(Date(2001, 9, 8));
  }

  /** `1000000000` decodes to `2001-09-08`. */
  lemma DecodeExample(corpus: seq<CorpusObject>)
    ensures ConvertTimestamp(corpus, true, Int(1000000000)) == ("2001-09-08", true)
  {
    TenCharacters(1000000000);
    assert 1000000000 / 86400 == 11574;
    assert LooksLikeTimestamp(Int(1000000000));
    LegacyDateExample();
    assert ConvertTimestamp(corpus, true, Int(1000000000)) == (FormatDate(Date(2001, 9, 8)), true);
    FormatDateExample();
  }

  lemma FormatDateExample()
    ensures FormatDate(Date(2001, 9, 8)) == "2001-09-08"
  {
    assert ZeroPad(2001, 4) == "2001" by {
      assert NatToString(200) == "200" by {
        assert NatToString(20) == "20";
      }
      assert NatToString(2001) == "2001";
    }
    assert ZeroPad(9, 2) == "09" by {
      assert NatToString(9) == "9";
    }
    assert ZeroPad(8, 2) == "08" by {
      assert NatToString(8) == "8";
    }
  }

  /** `1109548800` is 12842 days after the reference, 2036-02-29; 2005 has no 29th of February,
      so the value falls back to the option lookup. */
  lemma LeapDayFallsBack(corpus: seq<CorpusObject>)
    ensures ConvertTimestamp(corpus, true, Int(1109548800)) == (OptionName(corpus, Int(1109548800)), false)
  {
    TenCharacters(1109548800);
    assert 1109548800 / 86400 == 12842;
    assert DaysBeforeYear(2001) == 730485;
    assert ToOrdinal(Reference) == 730486;
    assert DaysBeforeYear(2036) == 743268;
    assert ToOrdinal(Date(2036, 2, 29)) == 743328;
    OrdinalRoundTrip(Date(2036, 2, 29));
    assert AddDays(Reference, 12842) == Some(Date(2036, 2, 29));
    assert !IsLeap(2005);
  }
}
