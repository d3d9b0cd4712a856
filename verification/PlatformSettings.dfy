/** `platform_settings_service.py`: settings in a table, mirrored by an in-memory cache. */
module PlatformSettings {
  import opened Options

  // ------------------------------------------------------------------
  // Which keys are secret
  // ------------------------------------------------------------------

  /** Lower case, for ASCII. */
  function Lower(s: string): string {
    seq(|s|, i requires 0 <= i < |s| => if 'A' <= s[i] <= 'Z' then s[i] - 'A' + 'a' else s[i])
  }

  predicate Contains(s: string, part: string) {
    exists i :: 0 <= i <= |s| && part <= From(s, i)
  }

  function From(s: string, i: nat): string
    requires i <= |s|
  {
    s[i..]
  }

  const RESERVED_PREFIX := "custody."

  const SECRET_SUBSTRINGS: set<string> :=
    {"password", "secret", "api_key", "apikey", "token", "private_key", "credential"}

  const NON_SECRET_KEYS: set<string> :=
    {"auth.password.enabled", "auth.password.min_length", "auth.password.pbkdf2_iters", "platform.setup_complete"}

  predicate IsReserved(key: string) { RESERVED_PREFIX <= Lower(key) }

  predicate IsSecretKey(key: string) {
    || IsReserved(key)
    || (key !in NON_SECRET_KEYS && exists part :: part in SECRET_SUBSTRINGS && Contains(Lower(key), part))
  }

  /** Case is folded letter by letter, and nothing but A to Z is changed. */
  lemma LowerIs(s: string, i: nat)
    requires i < |s|
    ensures |Lower(s)| == |s|
    ensures Lower(s)[i] == if 'A' <= s[i] <= 'Z' then (s[i] as int + 32) as char else s[i]
  {}

  predicate Marks(low: string, before: string, mark: string, after: string) { low == before + mark + after }

  /** The key's lower case has the mark in it. */
  ghost predicate Mentions(key: string, mark: string) {
    exists before, after :: Marks(Lower(key), before, mark, after)
  }

  lemma ContainsIffMentions(key: string, mark: string)
    ensures Contains(Lower(key), mark) <==> Mentions(key, mark)
  {
    hide Lower;
    var low := Lower(key);
    if i :| 0 <= i <= |low| && mark <= From(low, i) {
      assert low == low[..i] + mark + low[i + |mark|..];
      assert Marks(low, low[..i], mark, low[i + |mark|..]);
    }
    if before, after :| Marks(low, before, mark, after) {
      assert mark <= From(low, |before|);
    }
  }

  /** A key is reserved exactly when its lower case begins with "custody.". It is secret when reserved, or
      when its lower case mentions one of seven words and it is not one of four keys named. */
  lemma ClassifiedIff(key: string)
    ensures IsReserved(key) <==> exists rest :: Marks(Lower(key), "", "custody.", rest)
    ensures IsSecretKey(key) <==>
      || (exists rest :: Marks(Lower(key), "", "custody.", rest))
      || (key != "auth.password.enabled" && key != "auth.password.min_length"
          && key != "auth.password.pbkdf2_iters" && key != "platform.setup_complete"
          && (Mentions(key, "password") || Mentions(key, "secret") || Mentions(key, "api_key")
              || Mentions(key, "apikey") || Mentions(key, "token") || Mentions(key, "private_key")
              || Mentions(key, "credential")))
  {
    ReservedIff(key);
    hide IsReserved, Lower, Contains, Mentions;
    ContainsIffMentions(key, "password");
    ContainsIffMentions(key, "secret");
    ContainsIffMentions(key, "api_key");
    ContainsIffMentions(key, "apikey");
    ContainsIffMentions(key, "token");
    ContainsIffMentions(key, "private_key");
    ContainsIffMentions(key, "credential");
  }

  lemma ReservedIff(key: string)
    ensures IsReserved(key) <==> exists rest :: Marks(Lower(key), "", "custody.", rest)
  {
    hide Lower;
    var low := Lower(key);
    if IsReserved(key) {
      assert Marks(low, "", "custody.", low[8..]);
    }
    if rest :| Marks(low, "", "custody.", rest) {
      assert low == "custody." + rest;
    }
  }

  // ------------------------------------------------------------------
  // The table and the cache
  // ------------------------------------------------------------------

  datatype Row = Row(value: Option<string>, secretValue: Option<string>, isSecret: bool)

  type Table = map<string, Row>

  datatype Cache = Cache(values: map<string, string>, secrets: map<string, string>)

  /** One write asked for: `sealed` is the ciphertext of the value, should it be a secret. */
  datatype Item = Item(key: string, raw: Option<string>, askSecret: bool, sealed: string)

  function Text(raw: Option<string>): string { if raw.Some? then raw.value else "" }

  predicate Secret(item: Item) { IsSecretKey(item.key) || item.askSecret }

  /** The cipher gives back what it was given, and no ciphertext is empty. */
  predicate SealedOk(decrypt: string -> Option<string>, item: Item) {
    item.sealed != "" && decrypt(item.sealed) == Some(Text(item.raw))
  }

  function RowOf(item: Item): Row {
    if Secret(item) then Row(None, Some(item.sealed), true) else Row(item.raw, None, false)
  }

  /** What `_absorb` reads off a row: a value, a secret, or neither. */
  function ReadValue(key: string, row: Row): Option<string> {
    if IsReserved(key) || row.isSecret then None else row.value
  }

  function ReadSecret(decrypt: string -> Option<string>, key: string, row: Row): Option<string> {
    if IsReserved(key) || !row.isSecret || row.secretValue.None? || row.secretValue.value == "" then None
    else decrypt(row.secretValue.value)
  }

  /** What `load_all` rebuilds from the table. */
  function Rebuilt(decrypt: string -> Option<string>, rows: Table): Cache {
    Cache(
      map k | k in rows && ReadValue(k, rows[k]).Some? :: ReadValue(k, rows[k]).value,
      map k | k in rows && ReadSecret(decrypt, k, rows[k]).Some? :: ReadSecret(decrypt, k, rows[k]).value)
  }

  /** `_apply_to_cache`. */
  function Applied(c: Cache, item: Item): Cache {
    if Secret(item) then Cache(c.values - {item.key}, c.secrets[item.key := Text(item.raw)])
    else Cache(c.values[item.key := Text(item.raw)], c.secrets - {item.key})
  }

  function WrittenAll(rows: Table, items: seq<Item>): Table {
    if items == [] then rows
    else WrittenAll(rows, items[..|items| - 1])[items[|items| - 1].key := RowOf(items[|items| - 1])]
  }

  /** Where a batch meets its first reserved key, or its length. */
  function FirstReserved(items: seq<Item>): (n: nat)
    ensures n <= |items| && (n < |items| ==> IsReserved(items[n].key))
    ensures forall i :: 0 <= i < n ==> !IsReserved(items[i].key)
  {
    if items == [] then 0
    else
      var n := FirstReserved(items[..|items| - 1]);
      if n == |items| - 1 && !IsReserved(items[n].key) then |items| else n
  }

  function AppliedAll(c: Cache, items: seq<Item>): Cache {
    if items == [] then c else Applied(AppliedAll(c, items[..|items| - 1]), items[|items| - 1])
  }

  // ------------------------------------------------------------------
  // The service
  // ------------------------------------------------------------------

  function AllBut(rows: Table, left: set<string>): Table {
    map k | k in rows && k !in left :: rows[k]
  }

  lemma RebuiltNone(decrypt: string -> Option<string>)
    ensures Rebuilt(decrypt, map[]) == Cache(map[], map[])
  {}

  lemma RebuiltOneMore(decrypt: string -> Option<string>, rows: Table, key: string, row: Row)
    requires key !in rows
    ensures var c := Rebuilt(decrypt, rows);
      var v, x := ReadValue(key, row), ReadSecret(decrypt, key, row);
      Rebuilt(decrypt, rows[key := row]) == Cache(
        if v.Some? then c.values[key := v.value] else c.values,
        if x.Some? then c.secrets[key := x.value] else c.secrets)
  {
    hide ReadValue, ReadSecret;
  }

  class Settings {
    const decrypt: string -> Option<string>
    var values: map<string, string>
    var secrets: map<string, string>
    /** The committed rows, and the session's view of them with its uncommitted writes. */
    var committed: Table
    var pending: Table

    ghost function View(): Cache
      reads this
    {
      Cache(values, secrets)
    }

    constructor (decrypt: string -> Option<string>, rows: Table)
      ensures this.decrypt == decrypt && committed == rows && pending == rows && View() == Cache(map[], map[])
    {
      this.decrypt := decrypt;
      values, secrets := map[], map[];
      committed, pending := rows, rows;
    }

    method LoadAll()
      modifies this`values, this`secrets
      ensures View() == Rebuilt(decrypt, pending)
    {
      hide IsReserved, Rebuilt;
      values, secrets := map[], map[];
      var left := pending.Keys;
      assert AllBut(pending, left) == map[];
      RebuiltNone(decrypt);
      while left != {}
        invariant left <= pending.Keys
        invariant View() == Rebuilt(decrypt, AllBut(pending, left))
        decreases |left|
      {
        var key :| key in left;
        var row := pending[key];
        RebuiltOneMore(decrypt, AllBut(pending, left), key, row);
        assert AllBut(pending, left - {key}) == AllBut(pending, left)[key := row];
        left := left - {key};
        if !IsReserved(key) {
          if row.isSecret && row.secretValue.Some? && row.secretValue.value != "" {
            var plain := decrypt(row.secretValue.value);
            if plain.Some? {
              secrets := secrets[key := plain.value];
            }
          } else if !row.isSecret && row.value.Some? {
            values := values[key := row.value.value];
          }
        }
      }
      assert AllBut(pending, {}) == pending;
    }

    /** `set_value`: the server's classification can be raised by the caller, never lowered. */
    method SetValue(item: Item, commit: bool) returns (ok: bool)
      modifies this
      ensures ok <==> !IsReserved(item.key)
      ensures !ok ==> unchanged(this)
      ensures ok ==> pending == old(pending)[item.key := RowOf(item)]
      ensures ok && commit ==> committed == pending && View() == Applied(old(View()), item)
      ensures ok && !commit ==> committed == old(committed) && View() == old(View())
    {
      if IsReserved(item.key) {
        return false;
      }
      var isSecret := IsSecretKey(item.key) || item.askSecret;
      pending := pending[item.key :=
        if isSecret then Row(None, Some(item.sealed), true) else Row(item.raw, None, false)];
      if commit {
        committed := pending;
        ApplyToCache(item, isSecret);
      }
      return true;
    }

    method ApplyToCache(item: Item, isSecret: bool)
      requires isSecret == Secret(item)
      modifies this`values, this`secrets
      ensures View() == Applied(old(View()), item)
    {
      if isSecret {
        secrets := secrets[item.key := Text(item.raw)];
        values := values - {item.key};
      } else {
        values := values[item.key := Text(item.raw)];
        secrets := secrets - {item.key};
      }
    }

    /** What the end of a request does to its session: what was not committed is gone. */
    method CloseSession()
      modifies this`pending
      ensures pending == committed
    {
      pending := committed;
    }

    /** `set_many`: one transaction, and the cache only after it commits. A reserved key raises with the
        items before it written to the session and nothing committed. */
    method SetMany(items: seq<Item>) returns (ok: bool)
      modifies this
      ensures ok <==> FirstReserved(items) == |items|
      ensures !ok ==> committed == old(committed) && View() == old(View())
      ensures !ok ==> pending == WrittenAll(old(pending), items[..FirstReserved(items)])
      ensures ok ==> committed == pending == WrittenAll(old(pending), items)
      ensures ok ==> View() == AppliedAll(old(View()), items)
    {
      hide IsReserved, IsSecretKey, RowOf;
      var n := 0;
      while n < |items|
        invariant 0 <= n <= |items|
        invariant forall i :: 0 <= i < n ==> !IsReserved(items[i].key)
        invariant committed == old(committed) && View() == old(View())
        invariant pending == WrittenAll(old(pending), items[..n])
      {
        assert items[..n + 1][..n] == items[..n];
        var set_ := SetValue(items[n], false);
        if !set_ {
          assert n == FirstReserved(items);
          return false;
        }
        n := n + 1;
      }
      assert items[..n] == items;
      committed := pending;
      n := 0;
      while n < |items|
        invariant 0 <= n <= |items|
        invariant committed == pending == WrittenAll(old(pending), items)
        invariant View() == AppliedAll(old(View()), items[..n])
      {
        assert items[..n + 1][..n] == items[..n];
        ApplyToCache(items[n], IsSecretKey(items[n].key) || items[n].askSecret);
        n := n + 1;
      }
      assert items[..n] == items;
      return true;
    }
  }

  // ------------------------------------------------------------------
  // The cache agrees with the table
  // ------------------------------------------------------------------

  /** The last item of a batch for a key. */
  function LastFor(items: seq<Item>, key: string): Option<Item> {
    if items == [] then None
    else if items[|items| - 1].key == key then Some(items[|items| - 1])
    else LastFor(items[..|items| - 1], key)
  }

  /** The key is left with a string: it is secret, or its last item carries a value. */
  predicate LeavesString(items: seq<Item>, key: string) {
    var last := LastFor(items, key);
    last.Some? ==> Secret(last.value) || last.value.raw.Some?
  }

  function SeenIn(m: map<string, string>, key: string): Option<string> {
    if key in m then Some(m[key]) else None
  }

  lemma {:induction false} RowsAfter(rows: Table, items: seq<Item>, key: string)
    ensures var last := LastFor(items, key);
      if last.Some? then
        key in WrittenAll(rows, items) && WrittenAll(rows, items)[key] == RowOf(last.value)
      else
        (key in WrittenAll(rows, items) <==> key in rows)
        && (key in rows ==> WrittenAll(rows, items)[key] == rows[key])
    ensures LastFor(items, key).Some? ==> LastFor(items, key).value in items && LastFor(items, key).value.key == key
  {
    hide RowOf;
    if items != [] {
      assert items == items[..|items| - 1] + [items[|items| - 1]];
      RowsAfter(rows, items[..|items| - 1], key);
    }
  }

  lemma {:induction false} CacheAfter(c: Cache, items: seq<Item>, key: string)
    ensures var last := LastFor(items, key); var c' := AppliedAll(c, items);
      if last.None?
      then SeenIn(c'.values, key) == SeenIn(c.values, key) && SeenIn(c'.secrets, key) == SeenIn(c.secrets, key)
      else if Secret(last.value)
      then SeenIn(c'.values, key) == None && SeenIn(c'.secrets, key) == Some(Text(last.value.raw))
      else SeenIn(c'.values, key) == Some(Text(last.value.raw)) && SeenIn(c'.secrets, key) == None
  {
    hide IsSecretKey;
    if items != [] {
      CacheAfter(c, items[..|items| - 1], key);
    }
  }

  lemma RebuiltKey(decrypt: string -> Option<string>, rows: Table, key: string)
    ensures SeenIn(Rebuilt(decrypt, rows).values, key) == (if key in rows then ReadValue(key, rows[key]) else None)
    ensures SeenIn(Rebuilt(decrypt, rows).secrets, key)
      == if key in rows then ReadSecret(decrypt, key, rows[key]) else None
  {}

  /** What a reload reads, whatever rows it finds: never a reserved key; a plain row that has a value; a
      secret row that has a ciphertext, when that is not empty and decrypts. */
  lemma ReadsIff(decrypt: string -> Option<string>, rows: Table, key: string, text: string)
    ensures var c := Rebuilt(decrypt, rows); var reserved := exists rest :: Marks(Lower(key), "", "custody.", rest);
      && (key in c.values && c.values[key] == text <==>
            key in rows && !reserved && !rows[key].isSecret && rows[key].value == Some(text))
      && (key in c.secrets && c.secrets[key] == text <==>
            key in rows && !reserved && rows[key].isSecret && rows[key].secretValue.Some?
            && rows[key].secretValue.value != "" && decrypt(rows[key].secretValue.value) == Some(text))
  {
    hide IsReserved, Lower, Marks;
    ReservedIff(key);
  }

  lemma SameCache(c: Cache, d: Cache)
    ensures c == d <==>
      forall k :: SeenIn(c.values, k) == SeenIn(d.values, k) && SeenIn(c.secrets, k) == SeenIn(d.secrets, k)
  {
    if forall k :: SeenIn(c.values, k) == SeenIn(d.values, k) && SeenIn(c.secrets, k) == SeenIn(d.secrets, k) {
      forall k ensures k in c.values <==> k in d.values { assert SeenIn(c.values, k) == SeenIn(d.values, k); }
      forall k ensures k in c.secrets <==> k in d.secrets { assert SeenIn(c.secrets, k) == SeenIn(d.secrets, k); }
      assert c.values == d.values by {
        forall k | k in c.values ensures c.values[k] == d.values[k] {
          assert SeenIn(c.values, k) == SeenIn(d.values, k);
        }
      }
      assert c.secrets == d.secrets by {
        forall k | k in c.secrets ensures c.secrets[k] == d.secrets[k] {
          assert SeenIn(c.secrets, k) == SeenIn(d.secrets, k);
        }
      }
    }
  }

  /** After a committed batch the cache is what a reload of the table would build, duplicates and
      changes between plain and secret included, exactly when every key is left with a string. A
      plain key left without a value is cached as empty and reloads as absent. */
  lemma CacheAgreesAfterBatch(decrypt: string -> Option<string>, rows: Table, items: seq<Item>)
    requires forall i :: 0 <= i < |items| ==> !IsReserved(items[i].key) && SealedOk(decrypt, items[i])
    ensures AppliedAll(Rebuilt(decrypt, rows), items) == Rebuilt(decrypt, WrittenAll(rows, items))
      <==> forall key :: LeavesString(items, key)
  {
    hide IsReserved, IsSecretKey, WrittenAll, AppliedAll, Rebuilt, LastFor;
    var c, d := AppliedAll(Rebuilt(decrypt, rows), items), Rebuilt(decrypt, WrittenAll(rows, items));
    forall k
      ensures LeavesString(items, k)
        <==> SeenIn(c.values, k) == SeenIn(d.values, k) && SeenIn(c.secrets, k) == SeenIn(d.secrets, k)
    {
      RowsAfter(rows, items, k);
      CacheAfter(Rebuilt(decrypt, rows), items, k);
      RebuiltKey(decrypt, rows, k);
      RebuiltKey(decrypt, WrittenAll(rows, items), k);
    }
    SameCache(c, d);
  }

  /** A key the server calls secret is never stored in the clear, whatever the caller asks. */
  ghost predicate NoPlainSecret(rows: Table) {
    forall k :: k in rows && IsSecretKey(k) ==> rows[k].isSecret && rows[k].value.None?
  }

  lemma NeverTalkedOutOfEncrypting(rows: Table, items: seq<Item>)
    requires NoPlainSecret(rows)
    ensures NoPlainSecret(WrittenAll(rows, items))
  {
    hide IsSecretKey, WrittenAll, LastFor;
    forall k | k in WrittenAll(rows, items) && IsSecretKey(k)
      ensures WrittenAll(rows, items)[k].isSecret && WrittenAll(rows, items)[k].value.None?
    {
      RowsAfter(rows, items, k);
    }
  }

  /** Every row holds a value or a ciphertext, never both, as its flag says. */
  ghost predicate OneColumn(rows: Table) {
    forall k :: k in rows ==> if rows[k].isSecret then rows[k].value.None? else rows[k].secretValue.None?
  }

  lemma NeverInBothColumns(rows: Table, items: seq<Item>)
    requires OneColumn(rows)
    ensures OneColumn(WrittenAll(rows, items))
  {
    hide IsSecretKey, WrittenAll, LastFor;
    forall k | k in WrittenAll(rows, items)
      ensures var row := WrittenAll(rows, items)[k]; if row.isSecret then row.value.None? else row.secretValue.None?
    {
      RowsAfter(rows, items, k);
    }
  }

  /** What a caller asks to have encrypted is: the last write of a key decides, and is sealed when it asks. */
  lemma AskedIsSealed(rows: Table, items: seq<Item>, item: Item)
    requires item.askSecret
    ensures var rows' := WrittenAll(rows, items + [item]);
      item.key in rows' && rows'[item.key] == Row(None, Some(item.sealed), true)
  {
    assert (items + [item])[..|items|] == items;
  }

  // ------------------------------------------------------------------
  // Runs
  // ------------------------------------------------------------------

  /** The committed rows, the session's view of them, and the cache. */
  datatype State = State(rows: Table, pending: Table, cache: Cache)

  /** A batch, one `set_value` being a batch of one; or the end of a request and of its session. */
  datatype Event = Batch(items: seq<Item>) | Close

  predicate Refused(e: Event) { e.Batch? && FirstReserved(e.items) < |e.items| }

  function Step(s: State, e: Event): State {
    match e
    case Batch(items) =>
      if Refused(e) then s.(pending := WrittenAll(s.pending, items[..FirstReserved(items)]))
      else State(WrittenAll(s.pending, items), WrittenAll(s.pending, items), AppliedAll(s.cache, items))
    case Close => s.(pending := s.rows)
  }

  /** From a table just loaded. */
  function Loaded(decrypt: string -> Option<string>, rows: Table): State {
    State(rows, rows, Rebuilt(decrypt, rows))
  }

  function Run(start: State, es: seq<Event>): State {
    if es == [] then start else Step(Run(start, es[..|es| - 1]), es[|es| - 1])
  }

  /** A refused batch raises out of its request, so its session is closed before anything else. */
  predicate RefusalsClosed(es: seq<Event>) {
    forall k :: 0 <= k < |es| - 1 && Refused(es[k]) ==> es[k + 1].Close?
  }

  predicate Strings(decrypt: string -> Option<string>, items: seq<Item>) {
    forall i :: 0 <= i < |items| ==> items[i].raw.Some? && SealedOk(decrypt, items[i])
  }

  lemma BatchAgrees(decrypt: string -> Option<string>, rows: Table, items: seq<Item>)
    requires Strings(decrypt, items) && forall i :: 0 <= i < |items| ==> !IsReserved(items[i].key)
    ensures AppliedAll(Rebuilt(decrypt, rows), items) == Rebuilt(decrypt, WrittenAll(rows, items))
  {
    hide IsReserved, IsSecretKey, WrittenAll, AppliedAll, Rebuilt, LastFor, SealedOk;
    forall key ensures LeavesString(items, key) {
      RowsAfter(rows, items, key);
    }
    CacheAgreesAfterBatch(decrypt, rows, items);
  }

  /** Started from a loaded cache, the cache equals a reload after every run of batches of strings,
      refused ones included. */
  lemma {:induction false} CacheAlwaysAgrees(decrypt: string -> Option<string>, rows: Table, es: seq<Event>)
    requires RefusalsClosed(es)
    requires forall k :: 0 <= k < |es| && es[k].Batch? ==> Strings(decrypt, es[k].items)
    ensures var s := Run(Loaded(decrypt, rows), es);
      && s.cache == Rebuilt(decrypt, s.rows)
      && (s.pending == s.rows || (es != [] && Refused(es[|es| - 1])))
  {
    hide IsReserved, IsSecretKey, WrittenAll, AppliedAll, Rebuilt, Strings;
    if es != [] {
      var front, e := es[..|es| - 1], es[|es| - 1];
      assert forall k :: 0 <= k < |front| ==> front[k] == es[k];
      CacheAlwaysAgrees(decrypt, rows, front);
      var s := Run(Loaded(decrypt, rows), front);
      if e.Batch? && !Refused(e) {
        BatchAgrees(decrypt, s.rows, e.items);
      }
    }
  }

  /** The cache already reads the item's key as the item would leave it. */
  predicate AlreadyReads(c: Cache, item: Item) {
    if Secret(item)
    then SeenIn(c.values, item.key) == None && SeenIn(c.secrets, item.key) == Some(Text(item.raw))
    else SeenIn(c.values, item.key) == Some(Text(item.raw)) && SeenIn(c.secrets, item.key) == None
  }

  /** If `written` writes the key and `more` does not, the cache already reads it as written. */
  predicate NoTrace(c: Cache, written: seq<Item>, more: seq<Item>, key: string) {
    LastFor(written, key).Some? && LastFor(more, key).None? ==> AlreadyReads(c, LastFor(written, key).value)
  }

  predicate SameAt(c: Cache, d: Cache, key: string) {
    SeenIn(c.values, key) == SeenIn(d.values, key) && SeenIn(c.secrets, key) == SeenIn(d.secrets, key)
  }

  lemma NoTraceIff(c: Cache, written: seq<Item>, more: seq<Item>, key: string)
    ensures NoTrace(c, written, more, key) <==> SameAt(AppliedAll(c, more), AppliedAll(c, written + more), key)
  {
    hide IsSecretKey, AppliedAll, SeenIn, LastFor;
    LastOfBoth(written, more, key);
    CacheAfter(c, more, key);
    CacheAfter(c, written + more, key);
  }

  lemma SameCacheAt(c: Cache, d: Cache)
    ensures c == d <==> forall key :: SameAt(c, d, key)
  {
    hide SeenIn;
    SameCache(c, d);
    if forall key :: SameAt(c, d, key) {
      forall k ensures SeenIn(c.values, k) == SeenIn(d.values, k) && SeenIn(c.secrets, k) == SeenIn(d.secrets, k) {
        assert SameAt(c, d, k);
      }
    }
  }

  /** Were a refused batch's session used on, the next batch would commit what the refused one had
      written, and the cache would agree exactly when every key the refused one wrote, and the next
      does not overwrite, already read that way. */
  lemma UnclosedRefusalAgreesIff(decrypt: string -> Option<string>, rows: Table, items: seq<Item>, more: seq<Item>)
    requires Refused(Batch(items)) && !Refused(Batch(more)) && Strings(decrypt, items) && Strings(decrypt, more)
    ensures var s := Loaded(decrypt, rows); var t := Step(Step(s, Batch(items)), Batch(more));
      var written := items[..FirstReserved(items)];
      t.cache == Rebuilt(decrypt, t.rows) <==> forall key :: NoTrace(s.cache, written, more, key)
  {
    hide IsReserved, IsSecretKey, Rebuilt, SealedOk, AppliedAll, WrittenAll, NoTrace, SameAt;
    var written := items[..FirstReserved(items)];
    var c := Rebuilt(decrypt, rows);
    WrittenConcat(rows, written, more);
    BatchAgrees(decrypt, rows, written + more);
    SameCacheAt(AppliedAll(c, more), AppliedAll(c, written + more));
    forall key
      ensures NoTrace(c, written, more, key) <==> SameAt(AppliedAll(c, more), AppliedAll(c, written + more), key)
    {
      NoTraceIff(c, written, more, key);
    }
  }

  lemma {:induction false} LastOfBoth(a: seq<Item>, b: seq<Item>, key: string)
    ensures LastFor(a + b, key) == if LastFor(b, key).Some? then LastFor(b, key) else LastFor(a, key)
    ensures LastFor(a, key).Some? ==> LastFor(a, key).value.key == key
  {
    RowsAfter(map[], a, key);
    if b == [] {
      assert a + b == a;
    } else {
      assert (a + b)[..|a + b| - 1] == a + b[..|b| - 1];
      LastOfBoth(a, b[..|b| - 1], key);
    }
  }

  lemma {:induction false} WrittenConcat(rows: Table, a: seq<Item>, b: seq<Item>)
    ensures WrittenAll(WrittenAll(rows, a), b) == WrittenAll(rows, a + b)
  {
    if b == [] {
      assert a + b == a;
    } else {
      assert (a + b)[..|a + b| - 1] == a + b[..|b| - 1];
      WrittenConcat(rows, a, b[..|b| - 1]);
    }
  }
}
