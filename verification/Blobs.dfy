/**
Blob names, the blob directory inventory and the fate of every referenced
blob (`src/blob_keys.rs` and the blob part of `src/inspect.rs`).
*/
module Blobs {
  import opened Basics
  import opened Options

  // --------------------------------------------------------------- names

  datatype BlobClass = Body | Pcap | TlsSecrets

  function ClassName(c: BlobClass): string {
    match c
    case Body => "body"
    case Pcap => "pcap"
    case TlsSecrets => "tls_secrets"
  }

  predicate ValidHash(hash: string) {
    |hash| == 64 && forall c :: c in hash ==> '0' <= c <= '9' || 'a' <= c <= 'f'
  }

  const DASH_TAG := "-sha256-"
  const COLON_TAG := ":sha256:"

  /** What stands before the hash in a file name, and in an identity. */
  function NamePrefix(class_: Option<BlobClass>): string {
    if class_.None? then "sha256-" else ClassName(class_.value) + DASH_TAG
  }

  function IdentityPrefix(class_: Option<BlobClass>): string {
    if class_.None? then "sha256:" else ClassName(class_.value) + COLON_TAG
  }

  function BlobFileName(hash: string, class_: Option<BlobClass>): Option<string> {
    if ValidHash(hash) then Some(NamePrefix(class_) + hash) else None
  }

  function FileIdentity(class_: Option<BlobClass>, hash: string): string {
    IdentityPrefix(class_) + hash
  }

  /** The first prefix that fits decides; then the hash must be valid. */
  function ParseBlobFileName(name: string): Option<(Option<BlobClass>, string)> {
    var class_ := PrefixOf(name);
    if class_.None? then None
    else
      var hash := name[|NamePrefix(class_.value)|..];
      if ValidHash(hash) then Some((class_.value, hash)) else None
  }

  function PrefixOf(name: string): (r: Option<Option<BlobClass>>)
    ensures r.Some? ==> NamePrefix(r.value) <= name
  {
    if NamePrefix(None) <= name then Some(None)
    else if NamePrefix(Some(Body)) <= name then Some(Some(Body))
    else if NamePrefix(Some(Pcap)) <= name then Some(Some(Pcap))
    else if NamePrefix(Some(TlsSecrets)) <= name then Some(Some(TlsSecrets))
    else None
  }

  function IdentityClass(identity: string): Option<BlobClass> {
    if IdentityPrefix(Some(Body)) <= identity then Some(Body)
    else if IdentityPrefix(Some(Pcap)) <= identity then Some(Pcap)
    else if IdentityPrefix(Some(TlsSecrets)) <= identity then Some(TlsSecrets)
    else None
  }

  /** The first letter of a name already decides its class. */
  lemma {:induction false} PrefixLetter(class_: Option<BlobClass>, s: string)
    requires NamePrefix(class_) <= s || IdentityPrefix(class_) <= s
    ensures |s| >= 7
    ensures s[0] == (if class_.None? then 's' else if class_.value.Body? then 'b'
                     else if class_.value.Pcap? then 'p' else 't')
  {}

  lemma {:induction false} NamesRoundTrip(hash: string, class_: Option<BlobClass>)
    requires ValidHash(hash)
    ensures BlobFileName(hash, class_).Some?
    ensures ParseBlobFileName(BlobFileName(hash, class_).value) == Some((class_, hash))
  {
    var name := NamePrefix(class_) + hash;
    PrefixLetter(class_, name);
    PrefixLetter(PrefixOf(name).value, name);
    assert name[|NamePrefix(class_)|..] == hash;
  }

  lemma {:induction false} NamesAreCanonical(name: string)
    requires ParseBlobFileName(name).Some?
    ensures var (class_, hash) := ParseBlobFileName(name).value;
      BlobFileName(hash, class_) == Some(name)
  {
    var prefix := NamePrefix(PrefixOf(name).value);
    assert prefix + name[|prefix|..] == name;
  }

  /** Distinct blobs have distinct identities, and an identity shows its class. */
  lemma {:induction false} IdentitiesAreUnique(c: Option<BlobClass>, hash: string, d: Option<BlobClass>, other: string)
    requires FileIdentity(c, hash) == FileIdentity(d, other)
    ensures c == d && hash == other
  {
    PrefixLetter(c, FileIdentity(c, hash));
    PrefixLetter(d, FileIdentity(d, other));
    assert FileIdentity(c, hash)[|IdentityPrefix(c)|..] == hash;
    assert FileIdentity(d, other)[|IdentityPrefix(d)|..] == other;
  }

  lemma {:induction false} IdentityShowsClass(c: Option<BlobClass>, hash: string)
    ensures IdentityClass(FileIdentity(c, hash)) == c
  {
    var s := FileIdentity(c, hash);
    PrefixLetter(c, s);
    if IdentityClass(s).Some? {
      PrefixLetter(IdentityClass(s), s);
    }
  }

  // ----------------------------------------------------------- inventory

  const MAX_BLOB_DIRECTORY_ENTRIES: nat := 250_000
  const MAX_SINGLE_BLOB_BYTES: nat := 64 * 1024 * 1024
  const MAX_ENCODED_BLOB_BYTES: nat := MAX_SINGLE_BLOB_BYTES + 8 + 24 + 16

  /** One directory entry. `content` is the plaintext size when the file opens
      under its class key (or is plain) and hashes to the hash in its name. */
  datatype Entry =
    | Vanished                                           // a staging file renamed away
    | Irregular
    | File(name: string, storage: nat, encrypted: bool, content: Option<nat>)

  /** What the run says about its blob store. */
  datatype Store = Store(
    classKeyed: bool, expectEncrypted: bool, verify: bool,
    erased: set<BlobClass>, unavailable: set<BlobClass>)

  datatype Error = TooManyEntries | IrregularEntry | StorageOverflow | InvalidBlobName

  datatype Inventory = Inventory(
    files: nat, storage: nat, hashes: set<string>, sizes: map<string, nat>,
    corrupt: set<string>, pending: set<string>)

  /** Where the inventory puts one recognised file. */
  datatype Verdict = CorruptFile | PendingFile | UncheckedFile | SoundFile(size: nat)

  function Judge(store: Store, class_: Option<BlobClass>, f: Entry): Verdict
    requires f.File?
  {
    var limit := if store.expectEncrypted then MAX_ENCODED_BLOB_BYTES else MAX_SINGLE_BLOB_BYTES;
    if store.classKeyed != class_.Some? then CorruptFile
    else if class_.Some? && class_.value in store.erased then CorruptFile
    else if f.storage > limit then CorruptFile
    else if f.encrypted != store.expectEncrypted then CorruptFile
    else if !store.verify then UncheckedFile
    else if class_.Some? && class_.value in store.unavailable then PendingFile
    else if f.content.None? then CorruptFile
    else SoundFile(f.content.value)
  }

  /** The identity a directory entry stands for. */
  function EntryIdentity(f: Entry): Option<string> {
    if !f.File? || ParseBlobFileName(f.name).None? then None
    else
      var (class_, hash) := ParseBlobFileName(f.name).value;
      Some(FileIdentity(class_, hash))
  }

  /** File names in a directory are distinct. */
  predicate DistinctNames(entries: seq<Entry>) {
    forall i, j :: 0 <= i < j < |entries| && entries[i].File? && entries[j].File? ==>
      entries[i].name != entries[j].name
  }

  lemma {:induction false} IdentitiesFollowNames(f: Entry, g: Entry)
    requires EntryIdentity(f).Some? && EntryIdentity(f) == EntryIdentity(g)
    ensures f.name == g.name
  {
    var (c, hash) := ParseBlobFileName(f.name).value;
    var (d, other) := ParseBlobFileName(g.name).value;
    IdentitiesAreUnique(c, hash, d, other);
    NamesAreCanonical(f.name);
    NamesAreCanonical(g.name);
  }

  /** The inventory holds exactly the recognised files, each under its verdict. */
  ghost predicate Holds(store: Store, entries: seq<Entry>, inv: Inventory) {
    && (forall id :: id in inv.hashes <==> exists i :: 0 <= i < |entries| && EntryIdentity(entries[i]) == Some(id))
    && (forall i :: 0 <= i < |entries| && EntryIdentity(entries[i]).Some? ==>
      HoldsFile(store, entries[i], EntryIdentity(entries[i]).value, inv))
    && inv.corrupt <= inv.hashes && inv.pending <= inv.hashes && inv.sizes.Keys <= inv.hashes
  }

  ghost predicate HoldsFile(store: Store, f: Entry, id: string, inv: Inventory)
    requires EntryIdentity(f).Some?
  {
    var verdict := Judge(store, ParseBlobFileName(f.name).value.0, f);
    && (id in inv.corrupt <==> verdict.CorruptFile?)
    && (id in inv.pending <==> verdict.PendingFile?)
    && (id in inv.sizes <==> verdict.SoundFile?)
    && (verdict.SoundFile? ==> inv.sizes[id] == verdict.size)
  }

  /** `after` is `before` with one more file under its verdict. */
  ghost predicate Adds(store: Store, f: Entry, id: string, before: Inventory, after: Inventory)
    requires EntryIdentity(f).Some?
  {
    && after.hashes == before.hashes + {id} && HoldsFile(store, f, id, after)
    && after.corrupt - {id} == before.corrupt && after.pending - {id} == before.pending && after.sizes - {id} == before.sizes
  }

  method RecordFile(store: Store, inv: Inventory, f: Entry, class_: Option<BlobClass>, id: string) returns (after: Inventory)
    requires EntryIdentity(f).Some? && ParseBlobFileName(f.name).value.0 == class_
    requires id !in inv.corrupt && id !in inv.pending && id !in inv.sizes
    ensures Adds(store, f, id, inv, after) && after.files == inv.files + 1 && after.storage == inv.storage
  {
    after := inv.(files := inv.files + 1, hashes := inv.hashes + {id});
    match Judge(store, class_, f) {
      case CorruptFile => after := after.(corrupt := after.corrupt + {id});
      case PendingFile => after := after.(pending := after.pending + {id});
      case UncheckedFile =>
      case SoundFile(size) => after := after.(sizes := after.sizes[id := size]);
    }
  }

  /** No earlier entry stands for the same identity. */
  predicate IsNew(seen: seq<Entry>, f: Entry) {
    forall i :: 0 <= i < |seen| && EntryIdentity(f).Some? ==> EntryIdentity(seen[i]) != EntryIdentity(f)
  }

  lemma {:induction false} NotSeenBefore(entries: seq<Entry>, n: nat)
    requires DistinctNames(entries) && n < |entries|
    ensures IsNew(entries[..n], entries[n])
  {
    forall i | 0 <= i < n && EntryIdentity(entries[n]).Some? ensures EntryIdentity(entries[..n][i]) != EntryIdentity(entries[n]) {
      if EntryIdentity(entries[i]) == EntryIdentity(entries[n]) { IdentitiesFollowNames(entries[i], entries[n]); }
    }
  }

  /** An entry no inventory accepts. */
  predicate Unacceptable(f: Entry) {
    f.Irregular? || (f.File? && ParseBlobFileName(f.name).None? && PrefixOf(f.name).Some?)
  }

  function StorageOf(f: Entry): nat { if f.File? then f.storage else 0 }

  function TotalStorage(entries: seq<Entry>): nat {
    if entries == [] then 0 else TotalStorage(entries[..|entries| - 1]) + StorageOf(entries[|entries| - 1])
  }

  function Recognised(f: Entry): nat { if EntryIdentity(f).Some? then 1 else 0 }

  function FileCount(entries: seq<Entry>): nat {
    if entries == [] then 0 else FileCount(entries[..|entries| - 1]) + Recognised(entries[|entries| - 1])
  }

  /** The inventory of these entries: their files under their verdicts, and the totals. */
  ghost predicate Lists(store: Store, entries: seq<Entry>, inv: Inventory) {
    Holds(store, entries, inv) && inv.files == FileCount(entries) && inv.storage == TotalStorage(entries)
  }

  lemma {:induction false} TotalsGrow(seen: seq<Entry>, f: Entry)
    ensures TotalStorage(seen + [f]) == TotalStorage(seen) + StorageOf(f)
    ensures FileCount(seen + [f]) == FileCount(seen) + Recognised(f)
  {
    assert (seen + [f])[..|seen|] == seen;
  }

  /** What a directory must be like to be listed. */
  predicate Acceptable(entries: seq<Entry>) {
    TotalStorage(entries) <= U64_MAX && forall f :: f in entries ==> !Unacceptable(f)
  }

  lemma {:induction false} NotAcceptable(seen: seq<Entry>, entries: seq<Entry>)
    requires seen <= entries && !Acceptable(seen)
    ensures !Acceptable(entries)
  {
    StorageGrows(seen, entries);
  }

  lemma {:induction false} AcceptableGrows(seen: seq<Entry>, f: Entry)
    requires Acceptable(seen)
    ensures Acceptable(seen + [f]) <==> !Unacceptable(f) && TotalStorage(seen) + StorageOf(f) <= U64_MAX
  {
    TotalsGrow(seen, f);
    assert f in seen + [f];
  }

  lemma {:induction false} StorageGrows(seen: seq<Entry>, entries: seq<Entry>)
    requires seen <= entries
    ensures TotalStorage(seen) <= TotalStorage(entries)
    decreases |entries|
  {
    if |seen| < |entries| {
      StorageGrows(seen, entries[..|entries| - 1]);
    } else {
      assert seen == entries;
    }
  }

  method AddEntry(store: Store, inv: Inventory, f: Entry, ghost seen: seq<Entry>) returns (result: Result<Inventory, Error>)
    requires Lists(store, seen, inv) && Acceptable(seen) && DistinctNames(seen + [f])
    ensures result.Ok? ==> Lists(store, seen + [f], result.value)
    ensures result.Ok? <==> Acceptable(seen + [f])
  {
    var after := inv;
    TotalsGrow(seen, f);
    AcceptableGrows(seen, f);
    NotSeenBefore(seen + [f], |seen|);
    assert (seen + [f])[..|seen|] == seen;
    match f {
      case Vanished =>
      case Irregular =>
        return Err(IrregularEntry);
      case File(name, storage, _, _) =>
        if inv.storage + storage > U64_MAX {
          return Err(StorageOverflow);
        }
        after := inv.(storage := inv.storage + storage);
        var parsed := ParseBlobFileName(name);
        if parsed.None? {
          if PrefixOf(name).Some? {
            return Err(InvalidBlobName);
          }
        } else {
          after := RecordFile(store, after, f, parsed.value.0, FileIdentity(parsed.value.0, parsed.value.1));
        }
    }
    InventoryGrows(store, seen, f, inv, after);
    return Ok(after);
  }

  method BlobInventory(store: Store, entries: seq<Entry>) returns (result: Result<Inventory, Error>)
    requires DistinctNames(entries)
    ensures result.Ok? <==> |entries| <= MAX_BLOB_DIRECTORY_ENTRIES && Acceptable(entries)
    ensures result.Ok? ==> Lists(store, entries, result.value)
  {
    result := Ok(Inventory(0, 0, {}, map[], {}, {}));
    ghost var seen: seq<Entry> := [];
    for n := 0 to |entries|
      invariant n <= MAX_BLOB_DIRECTORY_ENTRIES && seen <= entries && |seen| == n
      invariant result.Ok? && Lists(store, seen, result.value) && Acceptable(seen)
    {
      if n + 1 > MAX_BLOB_DIRECTORY_ENTRIES {
        return Err(TooManyEntries);
      }
      result := AddEntry(store, result.value, entries[n], seen);
      seen := seen + [entries[n]];
      if result.Err? {
        NotAcceptable(seen, entries);
        return;
      }
    }
    assert seen == entries;
  }

  lemma {:induction false} InventoryGrows(store: Store, seen: seq<Entry>, f: Entry, before: Inventory, after: Inventory)
    requires Holds(store, seen, before)
    requires match EntryIdentity(f)
      case None => after == before.(storage := after.storage)
      case Some(id) =>
        && (forall i :: 0 <= i < |seen| ==> EntryIdentity(seen[i]) != Some(id))
        && Adds(store, f, id, before, after)
    ensures Holds(store, seen + [f], after)
  {
    var all := seen + [f];
    assert all[|seen|] == f;
    assert forall i :: 0 <= i < |seen| ==> all[i] == seen[i];
    forall id ensures id in after.hashes <==> exists i :: 0 <= i < |all| && EntryIdentity(all[i]) == Some(id) {
      if id in before.hashes {
        var i :| 0 <= i < |seen| && EntryIdentity(seen[i]) == Some(id);
        assert EntryIdentity(all[i]) == Some(id);
      }
    }
    forall i | 0 <= i < |all| && EntryIdentity(all[i]).Some?
      ensures HoldsFile(store, all[i], EntryIdentity(all[i]).value, after)
    {
      if i < |seen| {
        assert HoldsFile(store, seen[i], EntryIdentity(seen[i]).value, before);
      }
    }
  }

  // ---------------------------------------------------------------- fates

  datatype Fate = Intact | Missing | Corrupt | ErasedOnPurpose | PendingErasure

  /** The lists of an inspection; `corrupt` also names unreferenced files. */
  datatype Findings = Findings(
    missing: set<string>, corrupt: set<string>, erased: set<string>, pending: set<string>)

  predicate ClassIn(id: string, classes: set<BlobClass>) {
    IdentityClass(id).Some? && IdentityClass(id).value in classes
  }

  /** The branch one reference takes. */
  function Sentence(store: Store, inv: Inventory, id: string, expected: nat): Fate {
    if id !in inv.hashes then
      if ClassIn(id, store.erased) then ErasedOnPurpose
      else if ClassIn(id, store.unavailable) then PendingErasure
      else Missing
    else if id in inv.pending then PendingErasure
    else if store.verify && !(id in inv.sizes && inv.sizes[id] == expected) then Corrupt
    else Intact
  }

  ghost predicate Sentenced(store: Store, referenced: map<string, nat>, inv: Inventory, ids: set<string>, f: Findings)
    requires ids <= referenced.Keys
  {
    && (forall id :: id in f.missing <==> id in ids && Sentence(store, inv, id, referenced[id]) == Missing)
    && (forall id :: id in f.erased <==> id in ids && Sentence(store, inv, id, referenced[id]) == ErasedOnPurpose)
    && (forall id :: id in f.pending <==> id in ids && Sentence(store, inv, id, referenced[id]) == PendingErasure)
    && (forall id :: id in f.corrupt <==>
      id in inv.corrupt || (id in ids && Sentence(store, inv, id, referenced[id]) == Corrupt))
  }

  method ClassifyBlobs(store: Store, referenced: map<string, nat>, inv: Inventory) returns (f: Findings)
    ensures Sentenced(store, referenced, inv, referenced.Keys, f)
  {
    f := Findings({}, inv.corrupt, {}, {});
    var left := referenced.Keys;
    while left != {}
      invariant left <= referenced.Keys
      invariant Sentenced(store, referenced, inv, referenced.Keys - left, f)
    {
      var reference :| reference in left;
      left := left - {reference};
      if reference !in inv.hashes {
        if ClassIn(reference, store.erased) {
          f := f.(erased := f.erased + {reference});
        } else if ClassIn(reference, store.unavailable) {
          f := f.(pending := f.pending + {reference});
        } else {
          f := f.(missing := f.missing + {reference});
        }
      } else if reference in inv.pending {
        f := f.(pending := f.pending + {reference});
      } else if store.verify && !(reference in inv.sizes && inv.sizes[reference] == referenced[reference]) {
        f := f.(corrupt := f.corrupt + {reference});
      }
    }
    assert referenced.Keys - left == referenced.Keys;
  }

  /** What really became of a referenced blob, told from the directory. */
  ghost predicate IsIntact(entries: seq<Entry>, store: Store, id: string, size: nat) {
    exists i :: 0 <= i < |entries| && EntryIdentity(entries[i]) == Some(id)
      && Judge(store, ParseBlobFileName(entries[i].name).value.0, entries[i]) == SoundFile(size)
  }

  predicate HasFate(f: Findings, id: string, fate: Fate) {
    match fate
    case Missing => id in f.missing
    case Corrupt => id in f.corrupt
    case ErasedOnPurpose => id in f.erased
    case PendingErasure => id in f.pending
    case Intact => id !in f.missing && id !in f.corrupt && id !in f.erased && id !in f.pending
  }

  datatype Inspection = Inspection(findings: Findings, requestsComplete: bool, responsesComplete: bool)

  /**
  The blob part of an inspection. `requests` and `responses` are the flags the
  event log alone would give, `recovering` the classes whose erasure is only
  half done.
  */
  method InspectBlobs(store: Store, referenced: map<string, nat>, entries: seq<Entry>,
                      recovering: set<BlobClass>, requests: bool, responses: bool)
    returns (result: Result<Inspection, Error>)
    requires DistinctNames(entries)
    ensures result.Ok? && store.verify ==>
      && (forall id :: id in referenced ==>
        exists fate :: HasFate(result.value.findings, id, fate)
          && forall other :: HasFate(result.value.findings, id, other) ==> other == fate)
      && (forall id :: id in referenced ==>
        (HasFate(result.value.findings, id, Intact) <==> IsIntact(entries, store, id, referenced[id])))
    ensures result.Ok? && store.verify && (result.value.requestsComplete || result.value.responsesComplete) ==>
      forall id :: id in referenced ==> IsIntact(entries, store, id, referenced[id])
    ensures result.Ok? ==>
      (result.value.requestsComplete ==> requests) && (result.value.responsesComplete ==> responses)
  {
    var inventory := BlobInventory(store, entries);
    if inventory.Err? {
      return Err(inventory.error);
    }
    var inv := inventory.value;
    var f := ClassifyBlobs(store, referenced, inv);
    var requestsComplete, responsesComplete := requests, responses;
    if f.missing != {} || f.corrupt != {} || f.erased != {} || recovering != {} || f.pending != {} {
      requestsComplete, responsesComplete := false, false;
    }
    if store.verify {
      forall id | id in referenced
        ensures exists fate :: HasFate(f, id, fate) && forall other :: HasFate(f, id, other) ==> other == fate
        ensures HasFate(f, id, Intact) <==> IsIntact(entries, store, id, referenced[id])
      {
        FatesAreExclusive(store, referenced, entries, inv, f, id);
      }
    }
    return Ok(Inspection(f, requestsComplete, responsesComplete));
  }

  lemma {:induction false} FatesAreExclusive(store: Store, referenced: map<string, nat>, entries: seq<Entry>,
                                             inv: Inventory, f: Findings, id: string)
    requires store.verify && id in referenced && Holds(store, entries, inv)
    requires Sentenced(store, referenced, inv, referenced.Keys, f)
    ensures exists fate :: HasFate(f, id, fate) && forall other :: HasFate(f, id, other) ==> other == fate
    ensures HasFate(f, id, Intact) <==> IsIntact(entries, store, id, referenced[id])
  {
    var fate := Sentence(store, inv, id, referenced[id]);
    if id in inv.hashes {
      var i :| 0 <= i < |entries| && EntryIdentity(entries[i]) == Some(id);
      assert HoldsFile(store, entries[i], id, inv);
    }
    assert HasFate(f, id, fate) && forall other :: HasFate(f, id, other) ==> other == fate;
    if IsIntact(entries, store, id, referenced[id]) {
      var i :| 0 <= i < |entries| && EntryIdentity(entries[i]) == Some(id)
        && Judge(store, ParseBlobFileName(entries[i].name).value.0, entries[i]) == SoundFile(referenced[id]);
      assert HoldsFile(store, entries[i], id, inv);
    }
  }
}
