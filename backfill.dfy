/** The slug backfill script (scripts/backfill-slugs.ts): every blog whose
    slug is null gets one, allocated by the script's own copy of
    `ensureUniqueSlug` against the table as it stands, and written before
    the next allocation reads the table.

    The script's copy differs from the service's in one place: it drops
    falsy values from the observed slugs (`filter(Boolean)`), which drops
    `''` as well as `null`. `SlugAsWritten` keeps that behaviour and the
    table class runs it; `SlugCorrected` keeps `''`, and
    `RunCorrectedUnique` proves that the run then leaves every slug unique.
    The two agree whenever the slugified base is not empty
    (`RunAgreesOnNonEmpty`).

    Slugs are unique in the database (the service updates by
    `where: { slug }`), so `update` is rejected when another row already
    holds the slug; the rejection reaches the `catch` of `main`, which ends
    the run with exit code 1. `Script` is the run with that failure path,
    and `EmptySlugCollision` shows the as-written allocation hitting it;
    `Run` is the run in which every write succeeds. */
module Backfill {
  import opened Wrappers
  import opened Text
  import opened Slug

  /** The two columns the script reads or writes. */
  datatype Row = Row(title: string, slug: Option<string>)

  const DefaultBase := "post"

  /** `b.title || 'post'`. */
  function BaseOf(title: string): string {
    if title != "" then title else DefaultBase
  }

  /** No two rows share a slug; rows without a slug do not collide. */
  predicate SlugsUnique(rows: map<string, Row>) {
    forall a, b :: a in rows && b in rows && a != b && rows[a].slug.Some? ==> rows[a].slug != rows[b].slug
  }

  /** `id: excludeId ? { not: excludeId } : undefined`. */
  predicate Excluded(id: string, excludeId: string) {
    excludeId != "" && id == excludeId
  }

  /** The query: the slugs starting with `clean` of the rows other than the
      excluded one (a null slug never matches `startsWith`). */
  function Matching(rows: map<string, Row>, clean: string, excludeId: string): (m: set<string>)
    ensures forall s :: s in m ==> StartsWith(s, clean)
  {
    set id | id in rows && !Excluded(id, excludeId) && rows[id].slug.Some? && StartsWith(rows[id].slug.value, clean)
      :: rows[id].slug.value
  }

  /** Every slug of the rows other than the excluded one. */
  function OtherSlugs(rows: map<string, Row>, excludeId: string): set<string> {
    set id | id in rows && !Excluded(id, excludeId) && rows[id].slug.Some? :: rows[id].slug.value
  }

  /** The script's `ensureUniqueSlug` as written: the empty-result shortcut,
      then the probe against the observed slugs without the falsy ones. */
  function SlugAsWritten(rows: map<string, Row>, base: string, excludeId: string): string {
    var clean := Slugify(base);
    var existing := Matching(rows, clean, excludeId);
    if |existing| == 0 then clean else UniqueSlug(clean, existing - {""})
  }

  /** The allocation with every observed slug kept, as in the service's
      `ensureUniqueSlug`. */
  function SlugCorrected(rows: map<string, Row>, base: string, excludeId: string): string {
    UniqueSlug(Slugify(base), Matching(rows, Slugify(base), excludeId))
  }

  /** The corrected allocation differs from the slug of every other row. */
  lemma SlugCorrectedFresh(rows: map<string, Row>, base: string, excludeId: string)
    ensures SlugCorrected(rows, base, excludeId) !in OtherSlugs(rows, excludeId)
    ensures StartsWith(SlugCorrected(rows, base, excludeId), Slugify(base))
  {
    UniqueSlugSpec(Slugify(base), Matching(rows, Slugify(base), excludeId));
  }

  /** As written, the slug is unused by the other rows unless the base
      slugifies to `''`, which comes back as `''` however many rows have
      it. */
  lemma SlugAsWrittenFresh(rows: map<string, Row>, base: string, excludeId: string)
    ensures Slugify(base) != "" ==> SlugAsWritten(rows, base, excludeId) !in OtherSlugs(rows, excludeId)
    ensures Slugify(base) != "" ==> StartsWith(SlugAsWritten(rows, base, excludeId), Slugify(base))
    ensures Slugify(base) == "" ==> SlugAsWritten(rows, base, excludeId) == ""
  {
    if Slugify(base) != "" {
      AsWrittenAgreesOnNonEmpty(rows, base, excludeId);
      SlugCorrectedFresh(rows, base, excludeId);
    } else {
      AsWrittenEmptyClean(rows, base, excludeId);
    }
  }

  /** The filter only matters when the slugified base is empty: a non-empty
      `clean` cannot be a prefix of `''`, so `''` is never observed. */
  lemma AsWrittenAgreesOnNonEmpty(rows: map<string, Row>, base: string, excludeId: string)
    requires Slugify(base) != ""
    ensures SlugAsWritten(rows, base, excludeId) == SlugCorrected(rows, base, excludeId)
  {
    var clean := Slugify(base);
    var existing := Matching(rows, clean, excludeId);
    assert "" !in existing;
    assert existing - {""} == existing;
    if |existing| == 0 {
      assert existing == {};
    }
  }

  /** An allocation: the slug for a base, given the table and the id to
      exclude. The script's is `SlugAsWritten`; `SlugCorrected` is the
      intended one. */
  type Allocator = (map<string, Row>, string, string) -> string

  /** One iteration of `main`: the row gets the slug allocated for its base
      with itself excluded; nothing else changes. */
  function Assign(rows: map<string, Row>, id: string, allocate: Allocator): (r: map<string, Row>)
    requires id in rows
    ensures r.Keys == rows.Keys
    ensures forall k :: k in rows && k != id ==> r[k] == rows[k]
    ensures r[id] == Row(rows[id].title, Some(allocate(rows, BaseOf(rows[id].title), id)))
  {
    rows[id := Row(rows[id].title, Some(allocate(rows, BaseOf(rows[id].title), id)))]
  }

  /** The loop over the pending rows, in order. */
  function Run(rows: map<string, Row>, ids: seq<string>, allocate: Allocator): (r: map<string, Row>)
    requires forall i :: 0 <= i < |ids| ==> ids[i] in rows
    ensures r.Keys == rows.Keys
    decreases |ids|
  {
    if ids == [] then rows
    else
      var n := |ids| - 1;
      Assign(Run(rows, ids[..n], allocate), ids[n], allocate)
  }

  lemma RunSnoc(rows: map<string, Row>, ids: seq<string>, allocate: Allocator, i: nat)
    requires forall k :: 0 <= k < |ids| ==> ids[k] in rows
    requires i < |ids|
    ensures Run(rows, ids[..i + 1], allocate) == Assign(Run(rows, ids[..i], allocate), ids[i], allocate)
  {
    assert ids[..i + 1][..i] == ids[..i];
  }

  /** Another row already holds the slug. */
  predicate Taken(rows: map<string, Row>, id: string, slug: string) {
    exists k :: k in rows && k != id && rows[k].slug == Some(slug)
  }

  /** `prisma.blog.update({ where: { id }, data: { slug } })` against the
      unique index on `slug`: rejected when another row already holds the
      slug, otherwise only that row's slug changes. */
  function Write(rows: map<string, Row>, id: string, slug: string): (r: Option<map<string, Row>>)
    requires id in rows
    ensures r.None? <==> Taken(rows, id, slug)
    ensures r.Some? ==> r.value.Keys == rows.Keys && r.value[id] == Row(rows[id].title, Some(slug))
    ensures r.Some? ==> forall k :: k in rows && k != id ==> r.value[k] == rows[k]
  {
    if Taken(rows, id, slug) then None else Some(rows[id := Row(rows[id].title, Some(slug))])
  }

  /** The index does its job: an accepted write keeps the slugs unique,
      whatever slug was offered. */
  lemma WriteKeepsUnique(rows: map<string, Row>, id: string, slug: string)
    requires SlugsUnique(rows) && id in rows && Write(rows, id, slug).Some?
    ensures SlugsUnique(Write(rows, id, slug).value)
  {
    var after := Write(rows, id, slug).value;
    forall a, b | a in after && b in after && a != b && after[a].slug.Some?
      ensures after[a].slug != after[b].slug
    {
      if a == id {
        assert !(b in rows && b != id && rows[b].slug == Some(slug));
      } else if b == id {
        assert !(a in rows && a != id && rows[a].slug == Some(slug));
      }
    }
  }

  /** How `main` ends: every pending row written, or stopped by the write
      the index rejected, that of the `at`-th pending row, with the table as
      it then stands. */
  datatype Outcome = Completed(rows: map<string, Row>) | Aborted(rows: map<string, Row>, at: nat)

  /** `main` with its failure path, from the `i`-th pending row on: each row
      in order is allocated and written until a write is rejected, which
      ends the run (`catch`, exit code 1). */
  function Script(rows: map<string, Row>, ids: seq<string>, allocate: Allocator, i: nat): (r: Outcome)
    requires i <= |ids|
    requires forall k :: 0 <= k < |ids| ==> ids[k] in rows
    ensures r.rows.Keys == rows.Keys
    ensures r.Aborted? ==> i <= r.at < |ids|
    decreases |ids| - i
  {
    if i == |ids| then Completed(rows)
    else match Write(rows, ids[i], allocate(rows, BaseOf(rows[ids[i]].title), ids[i]))
      case None => Aborted(rows, i)
      case Some(next) => Script(next, ids, allocate, i + 1)
  }

  /** The script is the run in which every write succeeds, up to where it
      stops: from the table `Run` reached before the `i`-th row, a completed
      script leaves `Run`'s table; a stopped one leaves the table `Run`
      reached before the rejected row, whose offered slug another row
      already held. */
  lemma {:induction false} ScriptIsRun(rows: map<string, Row>, ids: seq<string>, allocate: Allocator, i: nat)
    requires i <= |ids|
    requires forall k :: 0 <= k < |ids| ==> ids[k] in rows
    ensures var out := Script(Run(rows, ids[..i], allocate), ids, allocate, i);
      out.Completed? ==> out.rows == Run(rows, ids, allocate)
    ensures var out := Script(Run(rows, ids[..i], allocate), ids, allocate, i);
      out.Aborted? ==>
        (out.rows == Run(rows, ids[..out.at], allocate)
         && Taken(out.rows, ids[out.at], allocate(out.rows, BaseOf(out.rows[ids[out.at]].title), ids[out.at])))
    decreases |ids| - i
  {
    if i == |ids| {
      assert ids[..i] == ids;
    } else {
      var before := Run(rows, ids[..i], allocate);
      var id := ids[i];
      var slug := allocate(before, BaseOf(before[id].title), id);
      if !Taken(before, id, slug) {
        RunSnoc(rows, ids, allocate, i);
        assert Write(before, id, slug).value == Run(rows, ids[..i + 1], allocate);
        ScriptIsRun(rows, ids, allocate, i + 1);
      }
    }
  }

  /** Whatever the allocation, the unique index keeps the slugs unique. */
  lemma {:induction false} ScriptKeepsUnique(rows: map<string, Row>, ids: seq<string>, allocate: Allocator, i: nat)
    requires SlugsUnique(rows) && i <= |ids|
    requires forall k :: 0 <= k < |ids| ==> ids[k] in rows
    ensures SlugsUnique(Script(rows, ids, allocate, i).rows)
    decreases |ids| - i
  {
    if i < |ids| {
      var slug := allocate(rows, BaseOf(rows[ids[i]].title), ids[i]);
      if Write(rows, ids[i], slug).Some? {
        WriteKeepsUnique(rows, ids[i], slug);
        ScriptKeepsUnique(Write(rows, ids[i], slug).value, ids, allocate, i + 1);
      }
    }
  }

  /** A slug no other row holds is accepted, and the write is `Assign`. */
  lemma FreshWriteAccepted(rows: map<string, Row>, id: string, allocate: Allocator)
    requires id in rows
    requires allocate(rows, BaseOf(rows[id].title), id) !in OtherSlugs(rows, id)
    ensures Write(rows, id, allocate(rows, BaseOf(rows[id].title), id)) == Some(Assign(rows, id, allocate))
  {
    var slug := allocate(rows, BaseOf(rows[id].title), id);
    forall k | k in rows && k != id && rows[k].slug.Some?
      ensures rows[k].slug != Some(slug)
    {
      assert !Excluded(k, id);
      assert rows[k].slug.value in OtherSlugs(rows, id);
    }
  }

  /** With the corrected allocation no write is rejected: the script runs to
      the end and leaves `Run`'s table. */
  lemma {:induction false} ScriptCorrectedCompletes(rows: map<string, Row>, ids: seq<string>, i: nat)
    requires i <= |ids|
    requires forall k :: 0 <= k < |ids| ==> ids[k] in rows
    ensures Script(Run(rows, ids[..i], SlugCorrected), ids, SlugCorrected, i) == Completed(Run(rows, ids, SlugCorrected))
    decreases |ids| - i
  {
    if i == |ids| {
      assert ids[..i] == ids;
    } else {
      var before := Run(rows, ids[..i], SlugCorrected);
      SlugCorrectedFresh(before, BaseOf(before[ids[i]].title), ids[i]);
      FreshWriteAccepted(before, ids[i], SlugCorrected);
      RunSnoc(rows, ids, SlugCorrected, i);
      ScriptCorrectedCompletes(rows, ids, i + 1);
    }
  }

  /** As written, the script also runs to the end when no pending title
      slugifies to `''`. */
  lemma {:induction false} ScriptAsWrittenCompletes(rows: map<string, Row>, ids: seq<string>, i: nat)
    requires i <= |ids|
    requires forall k :: 0 <= k < |ids| ==> ids[k] in rows
    requires forall k :: 0 <= k < |ids| ==> Slugify(BaseOf(rows[ids[k]].title)) != ""
    ensures Script(Run(rows, ids[..i], SlugAsWritten), ids, SlugAsWritten, i) == Completed(Run(rows, ids, SlugAsWritten))
    decreases |ids| - i
  {
    if i == |ids| {
      assert ids[..i] == ids;
    } else {
      var before := Run(rows, ids[..i], SlugAsWritten);
      RunTouchesOnlyPending(rows, ids[..i], SlugAsWritten);
      assert before[ids[i]].title == rows[ids[i]].title;
      SlugAsWrittenFresh(before, BaseOf(before[ids[i]].title), ids[i]);
      FreshWriteAccepted(before, ids[i], SlugAsWritten);
      RunSnoc(rows, ids, SlugAsWritten, i);
      ScriptAsWrittenCompletes(rows, ids, i + 1);
    }
  }

  /** A stopped run leaves the rejected row and every later pending row as
      they were, so their slugs stay null. */
  lemma AbortLeavesRest(rows: map<string, Row>, ids: seq<string>, allocate: Allocator)
    requires forall i :: 0 <= i < |ids| ==> ids[i] in rows
    requires forall i, j :: 0 <= i < j < |ids| ==> ids[i] != ids[j]
    ensures var out := Script(rows, ids, allocate, 0);
      out.Aborted? ==> forall j :: out.at <= j < |ids| ==> out.rows[ids[j]] == rows[ids[j]]
  {
    assert ids[..0] == [];
    ScriptIsRun(rows, ids, allocate, 0);
    var out := Script(rows, ids, allocate, 0);
    if out.Aborted? {
      RunTouchesOnlyPending(rows, ids[..out.at], allocate);
      forall j | out.at <= j < |ids|
        ensures out.rows[ids[j]] == rows[ids[j]]
      {
        assert forall m :: 0 <= m < out.at ==> ids[..out.at][m] == ids[m] != ids[j];
        assert ids[j] !in ids[..out.at];
      }
    }
  }

  /** Only the pending rows are touched: every other row is as it was, and
      every pending row keeps its title and has a slug. */
  lemma {:induction false} RunTouchesOnlyPending(rows: map<string, Row>, ids: seq<string>, allocate: Allocator)
    requires forall i :: 0 <= i < |ids| ==> ids[i] in rows
    ensures forall id :: id in rows && id !in ids ==> Run(rows, ids, allocate)[id] == rows[id]
    ensures forall id :: id in ids ==>
      Run(rows, ids, allocate)[id].title == rows[id].title && Run(rows, ids, allocate)[id].slug.Some?
    decreases |ids|
  {
    if ids != [] {
      var n := |ids| - 1;
      var before := Run(rows, ids[..n], allocate);
      RunTouchesOnlyPending(rows, ids[..n], allocate);
      forall id | id in ids
        ensures Run(rows, ids, allocate)[id].title == rows[id].title && Run(rows, ids, allocate)[id].slug.Some?
      {
        if id != ids[n] {
          var k :| 0 <= k < |ids| && ids[k] == id;
          assert ids[..n][k] == id;
        }
      }
      forall id | id in rows && id !in ids
        ensures Run(rows, ids, allocate)[id] == rows[id]
      {
        assert id !in ids[..n];
      }
    }
  }

  /** When the pending list holds every row without a slug and the script
      runs to the end (every write accepted), no null slug is left. */
  lemma NoNullSlugLeft(rows: map<string, Row>, ids: seq<string>, allocate: Allocator)
    requires forall i :: 0 <= i < |ids| ==> ids[i] in rows
    requires forall id :: id in rows && rows[id].slug.None? ==> id in ids
    ensures Script(rows, ids, allocate, 0).Completed? ==>
      forall id :: id in rows ==> Script(rows, ids, allocate, 0).rows[id].slug.Some?
  {
    assert ids[..0] == [];
    ScriptIsRun(rows, ids, allocate, 0);
    RunTouchesOnlyPending(rows, ids, allocate);
  }

  /** Giving a row a slug that no other row has keeps the slugs unique. */
  lemma AssignFreshKeepsUnique(rows: map<string, Row>, id: string, allocate: Allocator)
    requires SlugsUnique(rows) && id in rows
    requires allocate(rows, BaseOf(rows[id].title), id) !in OtherSlugs(rows, id)
    ensures SlugsUnique(Assign(rows, id, allocate))
  {
    var after := Assign(rows, id, allocate);
    forall a, b | a in after && b in after && a != b && after[a].slug.Some?
      ensures after[a].slug != after[b].slug
    {
      if a == id {
        if after[b].slug.Some? {
          assert !Excluded(b, id);
          assert after[b].slug.value in OtherSlugs(rows, id);
        }
      } else if b == id {
        assert !Excluded(a, id);
        assert after[a].slug.value in OtherSlugs(rows, id);
      }
    }
  }

  /** With the corrected allocation, the slugs written in one run are
      pairwise distinct and distinct from the slugs already there. */
  lemma {:induction false} RunCorrectedUnique(rows: map<string, Row>, ids: seq<string>)
    requires SlugsUnique(rows)
    requires forall i :: 0 <= i < |ids| ==> ids[i] in rows
    ensures SlugsUnique(Run(rows, ids, SlugCorrected))
    decreases |ids|
  {
    if ids != [] {
      var n := |ids| - 1;
      RunCorrectedUnique(rows, ids[..n]);
      var before := Run(rows, ids[..n], SlugCorrected);
      SlugCorrectedFresh(before, BaseOf(before[ids[n]].title), ids[n]);
      AssignFreshKeepsUnique(before, ids[n], SlugCorrected);
    }
  }

  /** The script's run gives the corrected run's table when no pending
      row's base slugifies to `''`: every allocation then agrees. */
  lemma {:induction false} RunAgreesOnNonEmpty(rows: map<string, Row>, ids: seq<string>)
    requires forall i :: 0 <= i < |ids| ==> ids[i] in rows
    requires forall i :: 0 <= i < |ids| ==> Slugify(BaseOf(rows[ids[i]].title)) != ""
    ensures Run(rows, ids, SlugAsWritten) == Run(rows, ids, SlugCorrected)
    decreases |ids|
  {
    if ids != [] {
      var n := |ids| - 1;
      RunAgreesOnNonEmpty(rows, ids[..n]);
      var before := Run(rows, ids[..n], SlugCorrected);
      RunTouchesOnlyPending(rows, ids[..n], SlugCorrected);
      assert before[ids[n]].title == rows[ids[n]].title;
      AssignAgrees(before, ids[n]);
    }
  }

  /** One assignment of a row whose base does not slugify to `''` is the
      same under both allocations. */
  lemma AssignAgrees(rows: map<string, Row>, id: string)
    requires id in rows && Slugify(BaseOf(rows[id].title)) != ""
    ensures Assign(rows, id, SlugAsWritten) == Assign(rows, id, SlugCorrected)
  {
    AsWrittenAgreesOnNonEmpty(rows, BaseOf(rows[id].title), id);
  }

  /** So the script's run leaves the slugs unique when no pending title is
      made only of characters that slugify away. */
  lemma RunAsWrittenUnique(rows: map<string, Row>, ids: seq<string>)
    requires SlugsUnique(rows)
    requires forall i :: 0 <= i < |ids| ==> ids[i] in rows
    requires forall i :: 0 <= i < |ids| ==> Slugify(BaseOf(rows[ids[i]].title)) != ""
    ensures SlugsUnique(Run(rows, ids, SlugAsWritten))
  {
    RunAgreesOnNonEmpty(rows, ids);
    RunCorrectedUnique(rows, ids);
  }

  /** The punctuation-only titles of the counterexample slugify to `''`. */
  lemma PunctuationSlugifiesEmpty()
    ensures Slugify("!") == "" && Slugify("?") == ""
  {
    PunctuationSlugifiesEmptyOne('!');
    PunctuationSlugifiesEmptyOne('?');
  }

  lemma PunctuationSlugifiesEmptyOne(c: char)
    requires c == '!' || c == '?'
    ensures Slugify([c]) == ""
  {
    assert StripDiacritics([c]) == [c];
    assert ToLower([c]) == [c];
    assert Collapse([c]) == "-" by {
      assert SkipSeparators([c][1..]) == "";
    }
    assert DropLeadingDashes("-") == "";
  }

  /** As written, a base that slugifies to `''` always gets `''`, however
      many rows already have it: `''` is filtered out of the observed slugs
      before the membership test. */
  lemma AsWrittenEmptyClean(rows: map<string, Row>, base: string, excludeId: string)
    requires Slugify(base) == ""
    ensures SlugAsWritten(rows, base, excludeId) == ""
  {
    var existing := Matching(rows, Slugify(base), excludeId);
    UniqueSlugSpec(Slugify(base), existing - {""});
  }

  /** The script as written, given two pending blogs whose non-empty titles
      both slugify to `''` (titles `!` and `?`, say) and no row holding
      `''`: the first gets `''`; the second allocation observes it but
      filters it out, so it is offered `''` as well, the unique index
      rejects the write and the run stops there, leaving the second row's
      slug null. */
  lemma EmptySlugCollision(rows: map<string, Row>, a: string, b: string, pending: seq<string>)
    requires pending == [a, b] && a != b && a in rows && b in rows
    requires forall i :: 0 <= i < |pending| ==> pending[i] in rows
    requires rows[a].title != "" && Slugify(rows[a].title) == ""
    requires rows[b].title != "" && Slugify(rows[b].title) == "" && rows[b].slug.None?
    requires forall k :: k in rows ==> rows[k].slug != Some("")
    ensures var out := Script(rows, pending, SlugAsWritten, 0);
      out == Aborted(rows[a := Row(rows[a].title, Some(""))], 1)
    ensures Script(rows, pending, SlugAsWritten, 0).rows[b] == rows[b]
  {
    var mid := rows[a := Row(rows[a].title, Some(""))];
    AsWrittenEmptyClean(rows, rows[a].title, a);
    AsWrittenEmptyClean(mid, rows[b].title, b);
    SameSlugTwice(rows, a, b, SlugAsWritten, "");
  }

  /** Two pending rows offered the same slug, which no row holds yet: the
      first write is accepted and the second rejected. */
  lemma SameSlugTwice(rows: map<string, Row>, a: string, b: string, allocate: Allocator, slug: string)
    requires a != b && a in rows && b in rows
    requires forall k :: k in rows ==> rows[k].slug != Some(slug)
    requires allocate(rows, BaseOf(rows[a].title), a) == slug
    requires allocate(rows[a := Row(rows[a].title, Some(slug))], BaseOf(rows[b].title), b) == slug
    ensures Script(rows, [a, b], allocate, 0) == Aborted(rows[a := Row(rows[a].title, Some(slug))], 1)
    ensures Script(rows, [a, b], allocate, 0).rows[b] == rows[b]
  {
    var ids := [a, b];
    var mid := rows[a := Row(rows[a].title, Some(slug))];
    assert !Taken(rows, a, slug);
    assert Write(rows, a, slug) == Some(mid);
    assert Script(rows, ids, allocate, 0) == Script(mid, ids, allocate, 1);
    assert mid[b] == rows[b];
    assert Taken(mid, b, slug) by {
      assert a in mid && a != b && mid[a].slug == Some(slug);
    }
  }

  /** One write, as written, for a row whose base slugifies to `''`: it is
      offered `''`, which the unique index rejects exactly when another row
      already holds `''`. */
  lemma AssignEmptyClean(rows: map<string, Row>, id: string)
    requires id in rows && rows[id].title != "" && Slugify(rows[id].title) == ""
    ensures SlugAsWritten(rows, BaseOf(rows[id].title), id) == ""
    ensures Write(rows, id, "") == if Taken(rows, id, "") then None else Some(rows[id := Row(rows[id].title, Some(""))])
  {
    AsWrittenEmptyClean(rows, rows[id].title, id);
  }

  /** Writing the next pending row keeps every earlier log line true: the
      pending rows are distinct, so no later write touches an earlier row. */
  lemma LogStep(rows: map<string, Row>, pending: seq<string>, log: seq<(string, string)>, i: nat, row: Row, slug: string)
    requires i < |pending| && |log| == i && row.slug == Some(slug)
    requires forall a, b :: 0 <= a < b < |pending| ==> pending[a] != pending[b]
    requires forall j :: 0 <= j < i ==> log[j].0 == pending[j] && pending[j] in rows && rows[pending[j]].slug == Some(log[j].1)
    ensures var after := rows[pending[i] := row];
      var log' := log + [(pending[i], slug)];
      forall j :: 0 <= j < i + 1 ==> log'[j].0 == pending[j] && after[pending[j]].slug == Some(log'[j].1)
  {
  }

  /** The table the script reads and updates, one row at a time. */
  class BlogTable {
    var rows: map<string, Row>

    constructor(initial: map<string, Row>)
      ensures rows == initial
    {
      rows := initial;
    }

    /** The script's `ensureUniqueSlug`: the query, the empty-result
        shortcut, the falsy slugs filtered out, then the probe loop
        (`SlugAsWrittenFresh` says what the slug is). */
    method EnsureUniqueSlug(base: string, excludeId: string) returns (slug: string)
      ensures slug == SlugAsWritten(rows, base, excludeId)
    {
      var clean := Slugify(base);
      var existing := Matching(rows, clean, excludeId);
      if |existing| == 0 {
        slug := clean;
      } else {
        slug := Probe(clean, existing - {""});
      }
    }

    /** One iteration of `main`: allocate the row's slug with the row
        itself excluded, then write it; the write is refused, and nothing
        changes, when another row already holds the slug. */
    method AssignSlug(id: string) returns (unique: string, written: bool)
      requires id in rows
      modifies this
      ensures unique == SlugAsWritten(old(rows), BaseOf(old(rows)[id].title), id)
      ensures written <==> Write(old(rows), id, unique).Some?
      ensures rows == if written then Write(old(rows), id, unique).value else old(rows)
    {
      var b := rows[id];
      unique := EnsureUniqueSlug(BaseOf(b.title), id);
      var w := Write(rows, id, unique);
      written := w.Some?;
      if written {
        rows := w.value;
      }
    }

    /** `main`: for each pending row, in order, allocate and write its slug,
        stopping at the first rejected write (`failed`). The log holds one
        `(id, slug)` line per written row, in order, each the slug that row
        ends up with. */
    method FillMissing(pending: seq<string>) returns (log: seq<(string, string)>, failed: bool)
      requires forall i :: 0 <= i < |pending| ==> pending[i] in rows
      requires forall i, j :: 0 <= i < j < |pending| ==> pending[i] != pending[j]
      modifies this
      ensures Script(old(rows), pending, SlugAsWritten, 0) == if failed then Aborted(rows, |log|) else Completed(rows)
      ensures |log| <= |pending| && (!failed ==> |log| == |pending|)
      ensures forall i :: 0 <= i < |log| ==> log[i].0 == pending[i] && rows[pending[i]].slug == Some(log[i].1)
    {
      log, failed := [], false;
      var i := 0;
      while i < |pending| && !failed
        invariant 0 <= i <= |pending| && |log| == i
        invariant rows.Keys == old(rows).Keys
        invariant !failed ==> Script(old(rows), pending, SlugAsWritten, 0) == Script(rows, pending, SlugAsWritten, i)
        invariant failed ==> i < |pending| && Script(old(rows), pending, SlugAsWritten, 0) == Aborted(rows, i)
        invariant forall j :: 0 <= j < i ==> log[j].0 == pending[j] && rows[pending[j]].slug == Some(log[j].1)
        decreases |pending| - i, if failed then 0 else 1
      {
        var written;
        log, written := FillNext(pending, i, log);
        if written {
          i := i + 1;
        } else {
          failed := true;
        }
      }
    }

    /** One turn of `main`'s loop: the `i`-th pending row, after the earlier
        ones were all written. */
    method FillNext(pending: seq<string>, i: nat, log: seq<(string, string)>) returns (log': seq<(string, string)>, written: bool)
      requires i < |pending| && |log| == i
      requires forall k :: 0 <= k < |pending| ==> pending[k] in rows
      requires forall a, b :: 0 <= a < b < |pending| ==> pending[a] != pending[b]
      requires forall j :: 0 <= j < i ==> log[j].0 == pending[j] && rows[pending[j]].slug == Some(log[j].1)
      modifies this
      ensures rows.Keys == old(rows).Keys
      ensures written ==> Script(old(rows), pending, SlugAsWritten, i) == Script(rows, pending, SlugAsWritten, i + 1)
      ensures !written ==> Script(old(rows), pending, SlugAsWritten, i) == Aborted(rows, i)
      ensures |log'| == if written then i + 1 else i
      ensures forall j :: 0 <= j < |log'| ==> log'[j].0 == pending[j] && rows[pending[j]].slug == Some(log'[j].1)
    {
      ghost var prev := rows;
      var unique;
      unique, written := AssignSlug(pending[i]);
      if written {
        assert rows == prev[pending[i] := Row(prev[pending[i]].title, Some(unique))];
        LogStep(prev, pending, log, i, rows[pending[i]], unique);
        log' := log + [(pending[i], unique)];
      } else {
        log' := log;
      }
    }
  }
}
