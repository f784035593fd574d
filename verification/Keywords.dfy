/**
 The keyword table: the `model_keywords` half of `app/memory/store.py`, and the catalogue of
 `app/models.py` that answers from memory in front of it.
 */
module Keywords {
  import opened Text
  import opened Wrappers

  type Keyword = string

  /** A row with an empty model is a tombstone: a reset still to be shared. */
  datatype Row = Row(model: string, description: string, synced: bool)

  type Local = map<Keyword, Row>

  // ---- What a keyword and a model may look like ----

  predicate IsKeywordChar(c: char) {
    'a' <= c <= 'z' || '0' <= c <= '9' || c == '_' || c == '-'
  }

  predicate AllKeywordChars(s: string) {
    s == "" || (IsKeywordChar(s[0]) && AllKeywordChars(s[1..]))
  }

  predicate NoSpaces(s: string) {
    s == "" || (!IsSpace(s[0]) && NoSpaces(s[1..]))
  }

  /** Where the first slash stands, or the length when there is none. */
  function Slash(s: string): (i: nat)
    ensures i <= |s|
  {
    if s == "" || s[0] == '/' then 0 else 1 + Slash(s[1..])
  }

  function NormalKeyword(name: string): Keyword { Lower(Strip(name)) }

  predicate ValidKeyword(name: string) {
    var k := NormalKeyword(name);
    1 <= |k| <= 32 && 'a' <= k[0] <= 'z' && AllKeywordChars(k)
  }

  /** `vendor/model`, split at its first slash, with no whitespace on either side. */
  predicate ValidModel(model: string) {
    var m := Strip(model);
    0 < Slash(m) && 1 <= |m| - Slash(m) - 1 <= 120 && NoSpaces(m)
  }

  lemma {:induction false} KeywordCharsAreNormal(k: string)
    requires AllKeywordChars(k)
    ensures Lower(k) == k && forall i :: 0 <= i < |k| ==> !IsSpace(k[i])
  {
    if k != "" {
      KeywordCharsAreNormal(k[1..]);
      assert forall i :: 1 <= i < |k| ==> k[i] == k[1..][i - 1];
      assert forall i :: 1 <= i < |k| ==> LowerChar(k[i]) == Lower(k[1..])[i - 1];
    }
  }

  lemma TrimmedIsStripped(s: string)
    requires Trimmed(s)
    ensures Strip(s) == s
  {
    StripUnique("", s, "");
    assert "" + s + "" == s;
  }

  /** Normalising a valid keyword again changes nothing. */
  lemma NormalKeywordIsValid(name: string)
    requires ValidKeyword(name)
    ensures NormalKeyword(NormalKeyword(name)) == NormalKeyword(name) && ValidKeyword(NormalKeyword(name))
  {
    var k := NormalKeyword(name);
    KeywordCharsAreNormal(k);
    TrimmedIsStripped(k);
  }

  lemma StrippedModelIsValid(model: string)
    requires ValidModel(model)
    ensures ValidModel(Strip(model)) && Strip(model) != "" && model != ""
  {
    var l, r := StripCutsBlanks(model);
    TrimmedIsStripped(Strip(model));
  }

  lemma EmptyIsNoModel()
    ensures !ValidModel("")
  {
    TrimmedIsStripped("");
  }

  /** A keyword is a letter and up to 31 letters, digits, underscores and dashes, once stripped and lowered. */
  lemma ValidKeywordIff(name: string)
    ensures ValidKeyword(name) <==>
      var k := Lower(Strip(name));
      && 1 <= |k| <= 32 && k[0] in "abcdefghijklmnopqrstuvwxyz"
      && forall i :: 0 <= i < |k| ==> k[i] in "abcdefghijklmnopqrstuvwxyz0123456789_-"
  {
    var k := Lower(Strip(name));
    KeywordCharsIff(k);
    if k != "" {
      LetterIff(k[0]);
    }
  }

  lemma LetterIff(c: char)
    ensures 'a' <= c <= 'z' <==> c in "abcdefghijklmnopqrstuvwxyz"
  {
  }

  lemma {:induction false} KeywordCharsIff(s: string)
    ensures AllKeywordChars(s) <==> forall i :: 0 <= i < |s| ==> s[i] in "abcdefghijklmnopqrstuvwxyz0123456789_-"
  {
    if s != "" {
      KeywordCharsIff(s[1..]);
      KeywordCharIff(s[0]);
      assert forall i :: 0 < i < |s| ==> s[i] == s[1..][i - 1];
      assert forall i :: 0 <= i < |s[1..]| ==> s[1..][i] == s[i + 1];
    }
  }

  lemma KeywordCharIff(c: char)
    ensures IsKeywordChar(c) <==> c in "abcdefghijklmnopqrstuvwxyz0123456789_-"
  {
  }

  /** A model id is a vendor, a slash and up to 120 more characters, with no whitespace and no slash in the vendor. */
  lemma ValidModelIff(model: string)
    ensures ValidModel(model) <==> exists vendor: string, name: string :: IsModel(Strip(model), vendor, name)
  {
    var m := Strip(model);
    var at := Slash(m);
    SlashIsFirst(m);
    NoSpacesIff(m);
    if ValidModel(model) {
      assert m == m[..at] + "/" + m[at + 1..];
      assert IsModel(m, m[..at], m[at + 1..]);
    }
    if vendor: string, name: string :| IsModel(m, vendor, name) {
      SlashAfter(vendor, name);
    }
  }

  lemma {:induction false} SlashAfter(vendor: string, name: string)
    requires '/' !in vendor
    ensures Slash(vendor + "/" + name) == |vendor|
  {
    if vendor != "" {
      assert (vendor + "/" + name)[1..] == vendor[1..] + "/" + name;
      SlashAfter(vendor[1..], name);
    }
  }

  ghost predicate IsModel(m: string, vendor: string, name: string) {
    && m == vendor + "/" + name && vendor != "" && '/' !in vendor && 1 <= |name| <= 120
    && forall i :: 0 <= i < |m| ==> !IsSpace(m[i])
  }

  lemma {:induction false} SlashIsFirst(s: string)
    ensures forall i :: 0 <= i < Slash(s) ==> s[i] != '/'
    ensures Slash(s) < |s| ==> s[Slash(s)] == '/'
    ensures Slash(s) == |s| ==> '/' !in s
  {
    if s != "" && s[0] != '/' {
      SlashIsFirst(s[1..]);
      assert s == [s[0]] + s[1..];
    }
  }

  lemma {:induction false} NoSpacesIff(s: string)
    ensures NoSpaces(s) <==> forall i :: 0 <= i < |s| ==> !IsSpace(s[i])
  {
    if s != "" {
      NoSpacesIff(s[1..]);
      assert forall i :: 0 < i < |s| ==> s[i] == s[1..][i - 1];
      assert forall i :: 0 <= i < |s[1..]| ==> s[1..][i] == s[i + 1];
    }
  }

  // ---- The table ----

  function SetRow(t: Local, k: Keyword, model: string, description: Option<string>, synced: bool): Local {
    var kept := if k in t then t[k].description else "";
    t[k := Row(model, if description == None then kept else description.value, synced)]
  }

  function ClearRow(t: Local, k: Keyword): Local {
    if k !in t then t
    else if t[k].synced then t[k := Row("", t[k].description, false)]
    else t - {k}
  }

  function MarkRow(t: Local, k: Keyword): Local {
    if k in t then t[k := t[k].(synced := true)] else t
  }

  class KeywordStore {
    var rows: Local

    constructor ()
      ensures rows == map[]
    {
      rows := map[];
    }

    method ModelKeywords(pending: Option<bool>) returns (t: Local)
      ensures t == map k | k in rows && (pending == None || rows[k].synced == !pending.value) :: rows[k]
    {
      t := map k | k in rows && (pending == None || rows[k].synced == !pending.value) :: rows[k];
    }

    method SetModelKeyword(k: Keyword, model: string, description: Option<string>, synced: bool)
      modifies this
      ensures rows == SetRow(old(rows), k, model, description, synced)
      // A description is kept unless another is given, and every other row is untouched.
      ensures k in rows && rows[k].model == model && rows[k].synced == synced && rows - {k} == old(rows) - {k}
      ensures rows[k].description == match description
                                     case Some(d) => d
                                     case None => if k in old(rows) then old(rows)[k].description else ""
    {
      if k in rows {
        rows := rows[k := Row(model, if description == None then rows[k].description else description.value, synced)];
      } else {
        rows := rows[k := Row(model, if description == None then "" else description.value, synced)];
      }
    }

    method ClearModelKeyword(k: Keyword)
      modifies this
      ensures rows == ClearRow(old(rows), k)
      ensures rows - {k} == old(rows) - {k}
      ensures k in rows <==> k in old(rows) && old(rows)[k].synced
      ensures k in rows ==> rows[k] == Row("", old(rows)[k].description, false)
    {
      if k !in rows {
        return;
      }
      if rows[k].synced {
        rows := rows[k := rows[k].(model := "", synced := false)];
      } else {
        rows := rows - {k};
      }
    }

    method DropModelKeyword(k: Keyword)
      modifies this
      ensures rows == old(rows) - {k}
    {
      rows := rows - {k};
    }

    method MarkModelKeywordSynced(k: Keyword)
      modifies this
      ensures rows == MarkRow(old(rows), k)
    {
      if k in rows {
        rows := rows[k := rows[k].(synced := true)];
      }
    }
  }

  // ---- What the table means ----

  /** The overrides in force: the usable rows that are not tombstones. */
  function Effective(t: Local): map<Keyword, string> {
    map k | k in t && ValidKeyword(k) && ValidModel(t[k].model) :: t[k].model
  }

  const BUILTIN: map<Keyword, string> := map[
    "fast" := "anthropic/claude-haiku-4.5",
    "cheap" := "meta-llama/llama-3.1-8b-instruct",
    "balanced" := "anthropic/claude-haiku-4.5",
    "strong" := "anthropic/claude-sonnet-4.6",
    "coding" := "anthropic/claude-sonnet-4.6",
    "reasoning" := "anthropic/claude-sonnet-4.6",
    "writing" := "anthropic/claude-sonnet-4.6",
    "research" := "anthropic/claude-sonnet-4.6",
    "vision" := "anthropic/claude-sonnet-4.6",
    "long" := "anthropic/claude-sonnet-4.6"
  ]

  /** Which model a name means, given the overrides in force; `runtime` is the library's own table. */
  function Resolve(overrides: map<Keyword, string>, keyword: string, tier: string,
                   runtime: string -> Option<string>): string {
    var name := if Strip(keyword) != "" then Strip(keyword) else Strip(tier);
    var models := BUILTIN + overrides;
    if '/' in name then name
    else if Lower(name) in models && models[Lower(name)] != "" then models[Lower(name)]
    else if runtime(name).Some? then runtime(name).value
    else if Lower(Strip(tier)) in models && models[Lower(Strip(tier))] != "" then models[Lower(Strip(tier))]
    else "anthropic/claude-haiku-4.5"
  }

  /** A name with a slash is a model id already, and comes back as it is but for whitespace around it. */
  lemma ModelsResolveToThemselves(overrides: map<Keyword, string>, keyword: string, tier: string, runtime: string -> Option<string>)
    requires '/' in Strip(keyword)
    ensures Resolve(overrides, keyword, tier, runtime) == Strip(keyword)
  {
  }

  /** No name at all means the install's own tier. */
  lemma BlankMeansTier(overrides: map<Keyword, string>, keyword: string, tier: string, runtime: string -> Option<string>)
    requires Strip(keyword) == ""
    ensures Resolve(overrides, keyword, tier, runtime) == Resolve(overrides, tier, tier, runtime)
  {
  }

  /** A keyword means what it was pointed at, built in or not, whatever the tier and whatever the library makes of it. */
  lemma OverrideWins(t: Local, keyword: string, tier: string, runtime: string -> Option<string>)
    requires ValidKeyword(keyword) && Lower(Strip(keyword)) in Effective(t)
    ensures Resolve(Effective(t), keyword, tier, runtime) == t[Lower(Strip(keyword))].model
  {
    KeywordHasNoSlash(keyword);
    EmptyIsNoModel();
  }

  lemma KeywordHasNoSlash(keyword: string)
    requires ValidKeyword(keyword)
    ensures Strip(keyword) != "" && '/' !in Strip(keyword)
  {
    ValidKeywordIff(keyword);
    var k, s := Lower(Strip(keyword)), Strip(keyword);
    forall i | 0 <= i < |s| ensures s[i] != '/' {
      assert k[i] == LowerChar(s[i]);
    }
  }

  /** A built-in keyword nobody re-pointed means its default. */
  lemma DefaultStands(overrides: map<Keyword, string>, keyword: string, tier: string, runtime: string -> Option<string>)
    requires ValidKeyword(keyword) && Lower(Strip(keyword)) !in overrides && Lower(Strip(keyword)) in BUILTIN
    ensures Resolve(overrides, keyword, tier, runtime) == BUILTIN[Lower(Strip(keyword))]
  {
    KeywordHasNoSlash(keyword);
    DefaultsAre();
  }

  lemma DefaultsAre()
    ensures BUILTIN.Keys == {"fast", "cheap", "balanced", "strong", "coding", "reasoning", "writing", "research", "vision", "long"}
    ensures BUILTIN["fast"] == BUILTIN["balanced"] == "anthropic/claude-haiku-4.5"
    ensures BUILTIN["cheap"] == "meta-llama/llama-3.1-8b-instruct"
    ensures forall k :: k in BUILTIN && k !in {"fast", "cheap", "balanced"} ==> BUILTIN[k] == "anthropic/claude-sonnet-4.6"
  {
  }

  /** Any other name is looked up in the library's table, and one unknown there too means what the tier means, or `balanced`. */
  lemma UnknownFallsBack(overrides: map<Keyword, string>, keyword: string, tier: string, runtime: string -> Option<string>)
    requires Strip(keyword) != "" && '/' !in Strip(keyword)
    requires Lower(Strip(keyword)) !in overrides && Lower(Strip(keyword)) !in BUILTIN
    ensures var model, t := Resolve(overrides, keyword, tier, runtime), Lower(Strip(tier));
      match runtime(Strip(keyword))
      case Some(known) => model == known
      case None =>
        if t in overrides && overrides[t] != "" then model == overrides[t]
        else if t in BUILTIN && t !in overrides then model == BUILTIN[t]
        else model == "anthropic/claude-haiku-4.5"
  {
  }

  /** One entry of a client's patch: `null` resets, a text points, anything else is junk. */
  datatype Patch = ToDefault | Point(model: string) | Junk

  function Patched(t: Local, keyword: string, p: Patch): Local {
    if !ValidKeyword(keyword) then t
    else
      match p
      case ToDefault => ClearRow(t, NormalKeyword(keyword))
      case Point(model) =>
        if ValidModel(model) then SetRow(t, NormalKeyword(keyword), Strip(model), None, false) else t
      case Junk => t
  }

  predicate TakesEffect(keyword: string, p: Patch) {
    ValidKeyword(keyword) && (p.ToDefault? || (p.Point? && ValidModel(p.model)))
  }

  /** What a payload is reported to have changed: its usable entries whose write succeeds, in order. */
  function Changes(payload: seq<(string, Patch)>, writes: nat -> bool): seq<string> {
    if payload == [] then []
    else
      var n := |payload| - 1;
      var before := Changes(payload[..n], writes);
      if TakesEffect(payload[n].0, payload[n].1) && writes(n) then before + [payload[n].0] else before
  }

  function PatchedAll(t: Local, payload: seq<(string, Patch)>, writes: nat -> bool): Local {
    if payload == [] then t
    else
      var n := |payload| - 1;
      var before := PatchedAll(t, payload[..n], writes);
      if writes(n) then Patched(before, payload[n].0, payload[n].1) else before
  }

  function Loaded(t: Local): Local {
    map k | k in t && ValidKeyword(k) && (ValidModel(t[k].model) || t[k].model == "") :: t[k]
  }

  function Shown(cache: Local): map<Keyword, string> {
    map k | k in cache && cache[k].model != "" :: cache[k].model
  }

  class Catalogue {
    const store: KeywordStore
    var cache: Option<Local>

    constructor (store: KeywordStore)
      ensures this.store == store && cache == None
    {
      this.store := store;
      cache := None;
    }

    /** What the cache answers is what the table means, whatever else they disagree on. */
    ghost predicate Coherent()
      reads this, store
    {
      cache.Some? ==> Shown(cache.value) == Effective(store.rows)
    }

    method Load() returns (t: Local)
      ensures t == Loaded(store.rows)
    {
      var rows := store.ModelKeywords(None);
      t := Loaded(rows);
      assert rows == store.rows;
    }

    method EnsureLoaded() returns (t: Local)
      requires Coherent()
      modifies this
      ensures cache == Some(t) && Coherent()
    {
      if cache == None {
        t := Load();
        cache := Some(t);
        LoadedIsEffective(store.rows);
      } else {
        t := cache.value;
      }
    }

    method Overrides() returns (o: map<Keyword, string>)
      requires Coherent()
      modifies this
      ensures Coherent() && o == Effective(store.rows)
    {
      var t := EnsureLoaded();
      o := Shown(t);
    }

    method ResolveKeyword(keyword: string, tier: string, runtime: string -> Option<string>) returns (model: string)
      requires Coherent()
      modifies this
      ensures Coherent() && model == Resolve(Effective(store.rows), keyword, tier, runtime)
      ensures (ValidKeyword(keyword) && Lower(Strip(keyword)) in Effective(store.rows))
                ==> model == store.rows[Lower(Strip(keyword))].model
    {
      assert (ValidKeyword(keyword) && Lower(Strip(keyword)) in Effective(store.rows))
        ==> Resolve(Effective(store.rows), keyword, tier, runtime) == store.rows[Lower(Strip(keyword))].model by {
        if ValidKeyword(keyword) && Lower(Strip(keyword)) in Effective(store.rows) {
          OverrideWins(store.rows, keyword, tier, runtime);
        }
      }
      var name := Strip(keyword);
      if name == "" {
        name := Strip(tier);
      }
      if '/' in name {
        return name;
      }
      var overrides := Overrides();
      var models := BUILTIN + overrides;
      if Lower(name) in models && models[Lower(name)] != "" {
        return models[Lower(name)];
      }
      if runtime(name).Some? {
        return runtime(name).value;
      }
      var fallback := Lower(Strip(tier));
      return if fallback in models && models[fallback] != "" then models[fallback] else "anthropic/claude-haiku-4.5";
    }

    /** `set_keyword`: refused unless both halves are valid, stored in normal form; a failed write raises. */
    method SetKeyword(keyword: string, model: string, description: Option<string>, writes: bool) returns (ok: bool, raised: bool)
      requires Coherent()
      modifies this, store
      ensures Coherent() && (ok || raised <==> ValidKeyword(keyword) && ValidModel(model))
      ensures ok ==> writes && !raised
      ensures raised ==> !writes
      ensures store.rows == if ok then SetRow(old(store.rows), NormalKeyword(keyword), Strip(model), description, false)
                            else old(store.rows)
    {
      if !ValidKeyword(keyword) || !ValidModel(model) {
        return false, false;
      }
      var k, m := NormalKeyword(keyword), Strip(model);
      var t := EnsureLoaded();
      if !writes {
        return false, true;
      }
      NormalKeywordIsValid(keyword);
      StrippedModelIsValid(model);
      SetMeans(store.rows, t, k, m, description);
      store.SetModelKeyword(k, m, description, false);
      var had := if k in t then t[k].description else "";
      cache := Some(t[k := Row(m, if description != None then description.value else had, false)]);
      return true, false;
    }

    /** `reset_keyword`: the cache is read again, since the store may have left a tombstone. */
    method ResetKeyword(keyword: string, writes: bool) returns (ok: bool, raised: bool)
      modifies this, store
      ensures ok == (ValidKeyword(keyword) && writes) && raised == (ValidKeyword(keyword) && !writes)
      ensures old(Coherent()) ==> Coherent()
      ensures store.rows == if ok then ClearRow(old(store.rows), NormalKeyword(keyword)) else old(store.rows)
    {
      if !ValidKeyword(keyword) {
        return false, false;
      }
      if cache == None {
        var had := Load();
        cache := Some(had);
        LoadedIsEffective(store.rows);
      }
      if !writes {
        return false, true;
      }
      store.ClearModelKeyword(NormalKeyword(keyword));
      var t := Load();
      cache := Some(t);
      LoadedIsEffective(store.rows);
      return true, false;
    }

    /** `apply_map`: a client's patch, entry by entry, with the keywords it changed. */
    method ApplyMap(payload: seq<(string, Patch)>, writes: nat -> bool) returns (changed: seq<string>)
      requires Coherent()
      modifies this, store
      ensures Coherent() && store.rows == PatchedAll(old(store.rows), payload, writes)
      ensures changed == Changes(payload, writes)
    {
      changed := [];
      for n := 0 to |payload|
        invariant Coherent() && store.rows == PatchedAll(old(store.rows), payload[..n], writes)
        invariant changed == Changes(payload[..n], writes)
      {
        assert payload[..n + 1][..n] == payload[..n];
        var keyword, p := payload[n].0, payload[n].1;
        if !ValidKeyword(keyword) {
          continue;
        }
        var ok, raised := false, false;
        match p {
          case ToDefault => ok, raised := ResetKeyword(keyword, writes(n));
          case Point(model) => ok, raised := SetKeyword(keyword, model, None, writes(n));
          case Junk =>
        }
        // A write that raises is logged, and the next entry is tried.
        if ok && !raised {
          changed := changed + [keyword];
        }
      }
      assert payload[..|payload|] == payload;
    }

    method Invalidate()
      modifies this
      ensures cache == None && Coherent()
    {
      cache := None;
    }
  }

  lemma LoadedIsEffective(t: Local)
    ensures Shown(Loaded(t)) == Effective(t)
  {
    EmptyIsNoModel();
  }

  lemma SetIsEffective(t: Local, k: Keyword, m: string, description: Option<string>, synced: bool)
    requires ValidKeyword(k) && ValidModel(m)
    ensures Effective(SetRow(t, k, m, description, synced)) == Effective(t)[k := m]
  {
  }

  lemma ShowsRow(cache: Local, k: Keyword, row: Row)
    requires ValidKeyword(k) && ValidModel(row.model)
    ensures Shown(cache[k := row]) == Shown(cache)[k := row.model]
  {
  }

  lemma SetMeans(t: Local, cache: Local, k: Keyword, m: string, description: Option<string>)
    requires ValidKeyword(k) && ValidModel(m) && Shown(cache) == Effective(t)
    ensures forall row: Row :: row.model == m ==> Shown(cache[k := row]) == Effective(SetRow(t, k, m, description, false))
  {
    StrippedModelIsValid(m);
    SetIsEffective(t, k, m, description, false);
    forall row: Row | row.model == m ensures Shown(cache[k := row]) == Effective(t)[k := m] {
      ShowsRow(cache, k, row);
    }
  }

  lemma ClearIsEffective(t: Local, k: Keyword)
    ensures Effective(ClearRow(t, k)) == Effective(t) - {k}
  {
    EmptyIsNoModel();
  }

  /** What is reported as changed: the keywords of a payload that are valid, reset or pointed at a valid model, and written. */
  lemma {:induction false} ChangesAre(payload: seq<(string, Patch)>, writes: nat -> bool, keyword: string)
    ensures keyword in Changes(payload, writes) <==>
      exists n: nat :: n < |payload| && payload[n].0 == keyword && writes(n) && ValidKeyword(keyword)
                       && (payload[n].1 == ToDefault || (payload[n].1.Point? && ValidModel(payload[n].1.model)))
  {
    if payload != [] {
      var n := |payload| - 1;
      ChangesAre(payload[..n], writes, keyword);
      assert forall k :: 0 <= k < n ==> payload[..n][k] == payload[k];
    }
  }

  /** What a patch does to the meaning of the table: one keyword, and only as asked. */
  lemma PatchMeans(t: Local, keyword: string, p: Patch)
    ensures var k := NormalKeyword(keyword);
            Effective(Patched(t, keyword, p)) ==
              if ValidKeyword(keyword) && p.ToDefault? then Effective(t) - {k}
              else if ValidKeyword(keyword) && p.Point? && ValidModel(p.model) then Effective(t)[k := Strip(p.model)]
              else Effective(t)
  {
    if ValidKeyword(keyword) {
      NormalKeywordIsValid(keyword);
      ClearIsEffective(t, NormalKeyword(keyword));
      if p.Point? && ValidModel(p.model) {
        StrippedModelIsValid(p.model);
        SetIsEffective(t, NormalKeyword(keyword), Strip(p.model), None, false);
      }
    }
  }
}
