/**
 The document table: ingestion marks byte-identical copies, extraction marks copies that are
 the same invoice, deletion clears the pointers to the deleted row.
 */
module Documents {
  import opened Wrappers
  import opened ContentMatch

  type DocId = nat

  /** `checksum` is the SHA-256 of the bytes, taken as injective. */
  datatype Document = Document(
    tenant: nat,
    checksum: nat,
    content: Content,
    isDuplicate: bool,
    duplicateOf: Option<DocId>)

  type Table = map<DocId, Document>

  /** Document types that are not searched for the same invoice. */
  const NOT_COMPARED: seq<string> :=
    ["bank_statement", "bank_reconciliation", "payroll_report", "payment_receipt", "other"]

  datatype DocError = MultipleResults | IdTaken

  /** The table, and the rows whose original has been deleted (no code reads the latter). */
  datatype Store = Store(docs: Table, orphans: set<DocId>)

  // ---------------------------------------------------------------------------------------
  // Queries
  // ---------------------------------------------------------------------------------------

  function Primaries(docs: Table, tenant: nat, checksum: nat): set<DocId> {
    set d | d in docs && docs[d].tenant == tenant && docs[d].checksum == checksum && !docs[d].isDuplicate
  }

  /** scalar_one_or_none: raises when two rows qualify. */
  ghost function FindDuplicate(docs: Table, tenant: nat, checksum: nat): Result<Option<DocId>, DocError> {
    var found := Primaries(docs, tenant, checksum);
    if found == {} then Ok(None)
    else if |found| > 1 then Err(MultipleResults)
    else
      var d :| d in found;
      Ok(Some(d))
  }

  /** A document that find_content_duplicate may return for `id`. */
  predicate ContentDuplicate(docs: Table, id: DocId, other: DocId)
    requires id in docs
  {
    && other in docs && other != id
    && docs[other].tenant == docs[id].tenant && !docs[other].isDuplicate
    && SameInvoice(docs[id].content, docs[other].content)
  }

  // ---------------------------------------------------------------------------------------
  // Steps, one transaction each
  // ---------------------------------------------------------------------------------------

  function Marked(d: Document, original: DocId): Document {
    d.(isDuplicate := true, duplicateOf := Some(original))
  }

  function Created(tenant: nat, checksum: nat, filename: string): Document {
    Document(tenant, checksum, Content(filename, None, None, None), false, None)
  }

  ghost function Ingest(s: Store, id: DocId, tenant: nat, checksum: nat, filename: string): Store {
    var existing := FindDuplicate(s.docs, tenant, checksum);
    if existing.Err? || id in s.docs then s
    else
      var doc := Created(tenant, checksum, filename);
      s.(docs := s.docs[id := if existing.value.Some? then Marked(doc, existing.value.value) else doc])
  }

  /** Extraction stores vendor, date and amount and then marks the document if it is the same invoice
      as `original`; the query may return any row that qualifies. */
  function Extract(s: Store, id: DocId, content: Content, original: Option<DocId>): Store {
    if id !in s.docs then s
    else
      var docs := s.docs[id := s.docs[id].(content := content)];
      if original.Some? && ContentDuplicate(docs, id, original.value)
      then Store(docs[id := Marked(docs[id], original.value)], s.orphans - {id})
      else s.(docs := docs)
  }

  /** ON DELETE SET NULL: the copies lose their pointer and stay marked. */
  function Delete(s: Store, id: DocId): Store {
    var copies := set d | d in s.docs && s.docs[d].duplicateOf == Some(id);
    Store(map d | d in s.docs && d != id :: if d in copies then s.docs[d].(duplicateOf := None) else s.docs[d],
          s.orphans + copies - {id})
  }

  datatype Step =
    | DoIngest(id: DocId, tenant: nat, checksum: nat, filename: string)
    | DoExtract(id: DocId, content: Content, original: Option<DocId>)
    | DoDelete(id: DocId)

  ghost function Next(s: Store, step: Step): Store {
    match step
    case DoIngest(id, tenant, checksum, filename) => Ingest(s, id, tenant, checksum, filename)
    case DoExtract(id, content, original) => Extract(s, id, content, original)
    case DoDelete(id) => Delete(s, id)
  }

  ghost function After(steps: seq<Step>): Store {
    if steps == [] then Store(map[], {}) else Next(After(steps[..|steps| - 1]), steps[|steps| - 1])
  }

  // ---------------------------------------------------------------------------------------
  // The repository and the ingest pipeline, as they update their rows
  // ---------------------------------------------------------------------------------------

  class DocumentRepository {
    var docs: Table
    ghost var orphans: set<DocId>

    constructor ()
      ensures Abs() == Store(map[], {})
    {
      docs, orphans := map[], {};
    }

    ghost function Abs(): Store
      reads this
    {
      Store(docs, orphans)
    }

    method Create(id: DocId, tenant: nat, checksum: nat, filename: string) returns (r: Result<DocId, DocError>)
      modifies this`docs
      ensures r == if id in old(docs) then Err(IdTaken) else Ok(id)
      ensures docs == if r.Ok? then old(docs)[id := Created(tenant, checksum, filename)] else old(docs)
    {
      if id in docs {
        return Err(IdTaken);
      }
      docs := docs[id := Created(tenant, checksum, filename)];
      return Ok(id);
    }

    method Lookup(tenant: nat, checksum: nat) returns (r: Result<Option<DocId>, DocError>)
      ensures r.Err? ==> r.error == MultipleResults
      ensures r.Err? <==> |Primaries(docs, tenant, checksum)| > 1
      ensures r == Ok(None) <==> Primaries(docs, tenant, checksum) == {}
      ensures r.Ok? && r.value.Some? ==> Primaries(docs, tenant, checksum) == {r.value.value}
    {
      var found := Primaries(docs, tenant, checksum);
      if found == {} {
        return Ok(None);
      }
      if |found| > 1 {
        return Err(MultipleResults);
      }
      var d :| d in found;
      OnlyElement(found, d);
      return Ok(Some(d));
    }

    /** Scans the rows in the order the database returns them and stops at the first that qualifies. */
    method FindContentDuplicate(id: DocId, rows: seq<DocId>) returns (r: Option<DocId>)
      requires id in docs && forall d :: d in docs <==> d in rows
      ensures r.Some? ==> ContentDuplicate(docs, id, r.value)
      ensures r.None? ==> forall d :: !ContentDuplicate(docs, id, d)
    {
      var target := docs[id].content;
      if target.vendor.None? || target.date.None? || target.total.None? || VendorTokens(target.vendor) == {} {
        return None;
      }
      var n := 0;
      while n < |rows|
        invariant 0 <= n <= |rows|
        invariant forall k :: 0 <= k < n ==> !ContentDuplicate(docs, id, rows[k])
      {
        var d := rows[n];
        assert d in rows;
        var candidate := docs[d];
        if candidate.tenant == docs[id].tenant && d != id && !candidate.isDuplicate
          && candidate.content.date == target.date && candidate.content.total == target.total
        {
          var shared := VendorTokens(candidate.content.vendor) * VendorTokens(target.vendor);
          if shared != {} && !NumbersDiffer(target, candidate.content) {
            assert VendorTokens(target.vendor) * VendorTokens(candidate.content.vendor) == shared;
            return Some(d);
          }
          assert shared == VendorTokens(target.vendor) * VendorTokens(candidate.content.vendor);
        }
        n := n + 1;
      }
      return None;
    }

    method MarkDuplicate(id: DocId, original: DocId)
      modifies this
      ensures docs == if id in old(docs) then old(docs)[id := Marked(old(docs)[id], original)] else old(docs)
      ensures orphans == old(orphans) - {id}
    {
      if id in docs {
        docs := docs[id := docs[id].(isDuplicate := true, duplicateOf := Some(original))];
      }
      orphans := orphans - {id};
    }

    method DeleteRow(id: DocId)
      modifies this
      ensures Abs() == Delete(old(Abs()), id)
    {
      orphans := orphans + (set d | d in docs && docs[d].duplicateOf == Some(id)) - {id};
      docs := map d | d in docs && d != id ::
        if docs[d].duplicateOf == Some(id) then docs[d].(duplicateOf := None) else docs[d];
    }

    /** The database part of ingest_document: look up the checksum, create the row, mark it if a primary exists. */
    method IngestDocument(id: DocId, tenant: nat, checksum: nat, filename: string) returns (r: Result<bool, DocError>)
      requires orphans <= docs.Keys
      modifies this
      ensures Abs() == Ingest(old(Abs()), id, tenant, checksum, filename)
      ensures r.Ok? <==> FindDuplicate(old(docs), tenant, checksum).Ok? && id !in old(docs)
      ensures r.Ok? ==> (r.value <==> FindDuplicate(old(docs), tenant, checksum).value.Some?)
    {
      var existing := Lookup(tenant, checksum);
      if existing.Err? {
        return Err(existing.error);
      }
      var created := Create(id, tenant, checksum, filename);
      if created.Err? {
        return Err(created.error);
      }
      if existing.value.Some? {
        MarkDuplicate(id, existing.value.value);
        return Ok(true);
      }
      return Ok(false);
    }

    /** The end of OCR processing: store the extracted fields, then mark a content duplicate, unless the
        document is of a type that is not compared. */
    method ExtractDocument(id: DocId, content: Content, documentType: string, rows: seq<DocId>)
      returns (original: Option<DocId>)
      requires forall d :: d in docs <==> d in rows
      modifies this
      ensures Abs() == Extract(old(Abs()), id, content, original)
      ensures original.Some? ==> id in old(docs) && documentType !in NOT_COMPARED
      ensures original.Some? ==>
        ContentDuplicate(old(docs)[id := old(docs)[id].(content := content)], id, original.value)
      ensures id in old(docs) && documentType !in NOT_COMPARED && original.None? ==>
        forall d :: !ContentDuplicate(docs, id, d)
    {
      original := None;
      if id !in docs {
        return;
      }
      docs := docs[id := docs[id].(content := content)];
      if documentType in NOT_COMPARED {
        return;
      }
      var found := FindContentDuplicate(id, rows);
      original := found;
      if found.Some? {
        MarkDuplicate(id, found.value);
      }
    }
  }

  lemma OnlyElement(s: set<DocId>, x: DocId)
    requires x in s && |s| <= 1
    ensures s == {x}
  {
    assert |s - {x}| == 0;
  }

  // ---------------------------------------------------------------------------------------
  // The invariant
  // ---------------------------------------------------------------------------------------

  ghost predicate OnePrimary(docs: Table) {
    forall d, e | d in docs && e in docs && !docs[d].isDuplicate && !docs[e].isDuplicate ::
      docs[d].tenant == docs[e].tenant && docs[d].checksum == docs[e].checksum ==> d == e
  }

  /** Pointers stay within the table and the tenant; only duplicates have one; a duplicate without one
      is a copy whose original was deleted. */
  ghost predicate Pointers(s: Store) {
    s.orphans <= s.docs.Keys &&
    forall d :: d in s.docs ==>
      && (!s.docs[d].isDuplicate ==> s.docs[d].duplicateOf.None?)
      && (s.docs[d].isDuplicate && s.docs[d].duplicateOf.None? ==> d in s.orphans)
      && (s.docs[d].duplicateOf.Some? ==>
            s.docs[d].duplicateOf.value in s.docs && s.docs[s.docs[d].duplicateOf.value].tenant == s.docs[d].tenant)
  }

  /** Every pointer leads to a lower rank. */
  ghost predicate Ranks(docs: Table, rank: map<DocId, nat>) {
    forall d :: d in docs ==>
      && d in rank
      && (docs[d].duplicateOf.Some? ==> docs[d].duplicateOf.value in rank && rank[docs[d].duplicateOf.value] < rank[d])
  }

  ghost predicate Valid(s: Store) {
    OnePrimary(s.docs) && Pointers(s) && exists rank :: Ranks(s.docs, rank)
  }

  lemma AtMostOneElement(s: set<DocId>)
    requires forall x, y :: x in s && y in s ==> x == y
    ensures |s| <= 1
  {
    if s != {} {
      var x :| x in s;
      assert s == {x};
    }
  }

  /** find_duplicate never raises on a table with one primary per checksum, and finds it if there is one. */
  lemma FindDuplicateIsTotal(docs: Table, tenant: nat, checksum: nat)
    requires OnePrimary(docs)
    ensures FindDuplicate(docs, tenant, checksum).Ok?
    ensures var r := FindDuplicate(docs, tenant, checksum).value;
      if r.Some? then r.value in Primaries(docs, tenant, checksum) else Primaries(docs, tenant, checksum) == {}
  {
    AtMostOneElement(Primaries(docs, tenant, checksum));
  }

  lemma IngestKeepsValid(s: Store, id: DocId, tenant: nat, checksum: nat, filename: string)
    requires Valid(s)
    ensures Valid(Ingest(s, id, tenant, checksum, filename))
  {
    FindDuplicateIsTotal(s.docs, tenant, checksum);
    var rank :| Ranks(s.docs, rank);
    var t := Ingest(s, id, tenant, checksum, filename);
    if id !in s.docs {
      var existing := FindDuplicate(s.docs, tenant, checksum).value;
      assert Ranks(t.docs, rank[id := if existing.Some? then rank[existing.value] + 1 else 0]);
      forall d, e | d in t.docs && e in t.docs && !t.docs[d].isDuplicate && !t.docs[e].isDuplicate
        && t.docs[d].tenant == t.docs[e].tenant && t.docs[d].checksum == t.docs[e].checksum
        ensures d == e
      {
        assert d != id ==> d in Primaries(s.docs, t.docs[d].tenant, t.docs[d].checksum);
        assert e != id ==> e in Primaries(s.docs, t.docs[e].tenant, t.docs[e].checksum);
      }
    }
  }

  lemma ExtractKeepsValid(s: Store, id: DocId, content: Content, original: Option<DocId>)
    requires Valid(s)
    ensures Valid(Extract(s, id, content, original))
  {
    if id in s.docs {
      var docs := s.docs[id := s.docs[id].(content := content)];
      ContentKeepsValid(s, id, content);
      if original.Some? && ContentDuplicate(docs, id, original.value) {
        MarkingKeepsValid(s.(docs := docs), id, original.value);
      }
    }
  }

  lemma ContentKeepsValid(s: Store, id: DocId, content: Content)
    requires Valid(s) && id in s.docs
    ensures Valid(s.(docs := s.docs[id := s.docs[id].(content := content)]))
  {
    var rank :| Ranks(s.docs, rank);
    assert Ranks(s.docs[id := s.docs[id].(content := content)], rank);
  }

  /** Marking a row as a copy of a primary, even a row that has copies itself. */
  lemma MarkingKeepsValid(s: Store, id: DocId, original: DocId)
    requires Valid(s) && id in s.docs && original in s.docs && original != id
    requires !s.docs[original].isDuplicate && s.docs[original].tenant == s.docs[id].tenant
    ensures Valid(Store(s.docs[id := Marked(s.docs[id], original)], s.orphans - {id}))
  {
    var rank :| Ranks(s.docs, rank);
    var docs := s.docs[id := Marked(s.docs[id], original)];
    var lifted := map d | d in rank :: if d == original then 0 else rank[d] + 1;
    assert Ranks(docs, lifted);
  }

  lemma DeleteKeepsValid(s: Store, id: DocId)
    requires Valid(s)
    ensures Valid(Delete(s, id))
  {
    var rank :| Ranks(s.docs, rank);
    assert Ranks(Delete(s, id).docs, rank);
  }

  /** Over any sequence of ingests, extractions and deletions. */
  lemma {:induction false} EveryRunKeepsValid(steps: seq<Step>)
    ensures Valid(After(steps))
    decreases |steps|
  {
    if steps == [] {
      assert Ranks(map[], map[]);
    } else {
      var s := After(steps[..|steps| - 1]);
      EveryRunKeepsValid(steps[..|steps| - 1]);
      match steps[|steps| - 1]
      case DoIngest(id, tenant, checksum, filename) => IngestKeepsValid(s, id, tenant, checksum, filename);
      case DoExtract(id, content, original) => ExtractKeepsValid(s, id, content, original);
      case DoDelete(id) => DeleteKeepsValid(s, id);
    }
  }

  /** A checksum is looked up without error after any run. */
  lemma DuplicateLookupNeverFails(steps: seq<Step>, tenant: nat, checksum: nat)
    ensures FindDuplicate(After(steps).docs, tenant, checksum).Ok?
  {
    EveryRunKeepsValid(steps);
    FindDuplicateIsTotal(After(steps).docs, tenant, checksum);
  }

  // ---------------------------------------------------------------------------------------
  // Chains of duplicates
  // ---------------------------------------------------------------------------------------

  /** Each document of the path is marked as a duplicate of the next. */
  ghost predicate Path(docs: Table, path: seq<DocId>) {
    && (forall i :: 0 <= i < |path| ==> path[i] in docs)
    && (forall i :: 0 <= i < |path| - 1 ==> docs[path[i]].duplicateOf == Some(path[i + 1]))
  }

  lemma {:induction false} RanksDecrease(docs: Table, rank: map<DocId, nat>, path: seq<DocId>, i: nat, j: nat)
    requires Ranks(docs, rank) && Path(docs, path) && i < j < |path|
    ensures rank[path[j]] < rank[path[i]]
    decreases j
  {
    if i < j - 1 {
      RanksDecrease(docs, rank, path, i, j - 1);
    }
    assert docs[path[j - 1]].duplicateOf == Some(path[j]);
  }

  /** No document is reachable from itself along duplicate_of pointers. */
  lemma DuplicatesAreAcyclic(steps: seq<Step>, path: seq<DocId>, i: nat, j: nat)
    requires Path(After(steps).docs, path) && i < j < |path|
    ensures path[i] != path[j]
  {
    EveryRunKeepsValid(steps);
    var rank :| Ranks(After(steps).docs, rank);
    RanksDecrease(After(steps).docs, rank, path, i, j);
  }

  /** A primary, or a copy whose original was deleted. */
  ghost predicate ChainEnd(s: Store, d: DocId) {
    d in s.docs && s.docs[d].duplicateOf.None? && (!s.docs[d].isDuplicate || d in s.orphans)
  }

  ghost predicate LeadsToEnd(s: Store, d: DocId, path: seq<DocId>)
    requires d in s.docs
  {
    path != [] && path[0] == d && ChainEnd(s, path[|path| - 1]) && s.docs[path[|path| - 1]].tenant == s.docs[d].tenant
  }

  lemma {:induction false} FollowToEnd(s: Store, rank: map<DocId, nat>, d: DocId) returns (path: seq<DocId>)
    requires Pointers(s) && Ranks(s.docs, rank) && d in s.docs
    ensures Path(s.docs, path) && LeadsToEnd(s, d, path)
    decreases rank[d]
  {
    if s.docs[d].duplicateOf.None? {
      path := [d];
    } else {
      var rest := FollowToEnd(s, rank, s.docs[d].duplicateOf.value);
      path := [d] + rest;
    }
  }

  /** From every document the pointers lead, within its tenant, to a primary or to a copy whose
      original was deleted. */
  lemma EveryChainEnds(steps: seq<Step>, d: DocId)
    requires d in After(steps).docs
    ensures exists path :: Path(After(steps).docs, path) && LeadsToEnd(After(steps), d, path)
  {
    EveryRunKeepsValid(steps);
    var rank :| Ranks(After(steps).docs, rank);
    var path := FollowToEnd(After(steps), rank, d);
  }

  // ---------------------------------------------------------------------------------------
  // What each step does to the rows
  // ---------------------------------------------------------------------------------------

  /** Ingestion adds one row with the given tenant and checksum: a copy of the tenant's unmarked row with
      that checksum if there is one, unmarked otherwise. No other row changes. */
  lemma IngestInFields(s: Store, id: DocId, tenant: nat, checksum: nat, filename: string)
    requires OnePrimary(s.docs) && id !in s.docs
    ensures var t := Ingest(s, id, tenant, checksum, filename);
      && t.docs.Keys == s.docs.Keys + {id} && (forall d :: d in s.docs ==> t.docs[d] == s.docs[d])
      && t.docs[id].tenant == tenant && t.docs[id].checksum == checksum && t.docs[id].content.filename == filename
      && (t.docs[id].isDuplicate <==>
            exists d :: d in s.docs && s.docs[d].tenant == tenant && s.docs[d].checksum == checksum
                        && !s.docs[d].isDuplicate)
      && (t.docs[id].isDuplicate <==> t.docs[id].duplicateOf.Some?)
      && (t.docs[id].isDuplicate ==>
            var d := t.docs[id].duplicateOf.value;
            d in s.docs && s.docs[d].tenant == tenant && s.docs[d].checksum == checksum && !s.docs[d].isDuplicate)
  {
    FindDuplicateIsTotal(s.docs, tenant, checksum);
    if d :| d in s.docs && s.docs[d].tenant == tenant && s.docs[d].checksum == checksum && !s.docs[d].isDuplicate {
      assert d in Primaries(s.docs, tenant, checksum);
    }
  }

  /** Extraction stores the fields and marks the row exactly when it is given an unmarked row of the tenant
      that is the same invoice. No other row changes. */
  lemma ExtractInFields(s: Store, id: DocId, content: Content, original: Option<DocId>)
    requires id in s.docs
    ensures var t := Extract(s, id, content, original);
      var marks := original.Some? && original.value != id && original.value in s.docs
                   && s.docs[original.value].tenant == s.docs[id].tenant && !s.docs[original.value].isDuplicate
                   && SameInvoice(content, s.docs[original.value].content);
      && t.docs.Keys == s.docs.Keys && (forall d :: d in s.docs && d != id ==> t.docs[d] == s.docs[d])
      && var before, after := s.docs[id], t.docs[id];
         && after.content == content && after.tenant == before.tenant && after.checksum == before.checksum
         && (marks ==> after.isDuplicate && after.duplicateOf == original)
         && (!marks ==> after.isDuplicate == before.isDuplicate && after.duplicateOf == before.duplicateOf)
  {
  }

  /** Deletion removes the row and nothing else; its copies lose their pointer and stay marked, and every
      other field of every other row stays. */
  lemma DeleteInFields(s: Store, id: DocId, d: DocId)
    ensures id !in Delete(s, id).docs
    ensures d != id ==> (d in Delete(s, id).docs <==> d in s.docs)
    ensures d != id && d in s.docs ==>
      var before, after := s.docs[d], Delete(s, id).docs[d];
      && after.tenant == before.tenant && after.checksum == before.checksum && after.content == before.content
      && after.isDuplicate == before.isDuplicate
      && after.duplicateOf == if before.duplicateOf == Some(id) then None else before.duplicateOf
  {
  }

  /** The types that are not compared. */
  lemma TypesNotCompared(t: string)
    ensures t in NOT_COMPARED <==>
      || t == "bank_statement" || t == "bank_reconciliation"
      || t == "payroll_report" || t == "payment_receipt" || t == "other"
  {
    assert NOT_COMPARED[0] == "bank_statement" && NOT_COMPARED[1] == "bank_reconciliation";
    assert NOT_COMPARED[2] == "payroll_report" && NOT_COMPARED[3] == "payment_receipt" && NOT_COMPARED[4] == "other";
  }
}
