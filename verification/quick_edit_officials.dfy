/** Quick Edit support for the officials of an event: the hidden per-row data, the
    once-only Quick Edit field, and the save handler that cleans the posted
    duty-to-officials array before overwriting the `sp_officials` post meta. */
module QuickEditOfficials {
  import opened Wrappers
  import opened Seqs

  /** The value posted for one duty: a list of official ids, or something that is not an
      array. Keys and ids are given as the integers PHP's `(int)` cast makes of them. */
  datatype RawIds = IdList(ids: seq<int>) | NotAList

  /** One entry of the posted `tony_sp_officials` array, in array order. */
  datatype RawDuty = RawDuty(key: int, value: RawIds)

  /** One entry of the cleaned array: duty id => official ids. */
  datatype DutyOfficials = DutyOfficials(duty: int, officials: seq<int>)

  /** A PHP array keyed by duty id, in insertion order. */
  type OfficialsMap = seq<DutyOfficials>

  /** WordPress `absint`: the absolute value of the integer. */
  function AbsInt(x: int): nat {
    if x < 0 then -x else x
  }

  function AbsAll(ids: seq<int>): (r: seq<int>)
    ensures |r| == |ids| && forall i :: 0 <= i < |ids| ==> r[i] == AbsInt(ids[i])
  {
    seq(|ids|, i requires 0 <= i < |ids| => AbsInt(ids[i]))
  }

  /** `array_filter` without a callback: drops the zeros. */
  function NonZero(s: seq<int>): (r: seq<int>)
    ensures forall x :: x in r ==> x in s && x != 0
    ensures forall x :: x in s && x != 0 ==> x in r
  {
    if s == [] then []
    else if s[0] == 0 then NonZero(s[1..])
    else [s[0]] + NonZero(s[1..])
  }

  /** The ids of one duty after `absint`, `array_filter`, `array_unique` and `array_values`:
      positive, without repeats, ordered by first occurrence, and exactly the non-zero
      `absint` values of the input. */
  function CleanIds(ids: seq<int>): (r: seq<int>)
    ensures forall x :: x in r ==> x > 0
    ensures Distinct(r)
    ensures forall i :: 0 <= i < |ids| && ids[i] != 0 ==> AbsInt(ids[i]) in r
    ensures forall x :: x in r ==> exists i :: 0 <= i < |ids| && AbsInt(ids[i]) == x
    ensures forall x :: x in r ==> x in NonZero(AbsAll(ids))
    ensures forall i, j :: 0 <= i < j < |r| ==>
              FirstIndex(NonZero(AbsAll(ids)), r[i]) < FirstIndex(NonZero(AbsAll(ids)), r[j])
    ensures forall x :: x in r ==> x in AbsAll(ids)
    ensures forall i, j :: 0 <= i < j < |r| ==> FirstIndex(AbsAll(ids), r[i]) < FirstIndex(AbsAll(ids), r[j])
  {
    var s := NonZero(AbsAll(ids));
    DedupeSpec(s);
    DedupeNonZeroOrder(AbsAll(ids));
    forall i | 0 <= i < |ids| && ids[i] != 0 ensures AbsInt(ids[i]) in Dedupe(s) {
      assert AbsAll(ids)[i] == AbsInt(ids[i]);
    }
    forall x | x in Dedupe(s) ensures exists i :: 0 <= i < |ids| && AbsInt(ids[i]) == x {
      var i :| 0 <= i < |AbsAll(ids)| && AbsAll(ids)[i] == x;
    }
    Dedupe(s)
  }

  /** `array_filter` keeps order and multiplicity: it distributes over concatenation and
      keeps exactly the non-zero singletons. */
  lemma {:induction false} NonZeroConcat(a: seq<int>, b: seq<int>)
    ensures NonZero(a + b) == NonZero(a) + NonZero(b)
    ensures forall x :: NonZero([x]) == if x == 0 then [] else [x]
  {
    if a == [] {
      assert a + b == b;
    } else {
      assert (a + b)[0] == a[0] && (a + b)[1..] == a[1..] + b;
      NonZeroConcat(a[1..], b);
    }
    forall x ensures NonZero([x]) == if x == 0 then [] else [x] {
      assert [x][1..] == [];
    }
  }

  /** Filtering out the zeros keeps the relative order of first occurrences. */
  lemma {:induction false} NonZeroKeepsFirstOrder(s: seq<int>, x: int, y: int)
    requires x in s && y in s && x != 0 && y != 0
    ensures x in NonZero(s) && y in NonZero(s)
    ensures FirstIndex(NonZero(s), x) < FirstIndex(NonZero(s), y) <==> FirstIndex(s, x) < FirstIndex(s, y)
  {
    var rest := NonZero(s[1..]);
    if s[0] == 0 {
      assert NonZero(s) == rest;
      NonZeroKeepsFirstOrder(s[1..], x, y);
    } else {
      var f := NonZero(s);
      assert f == [s[0]] + rest && f[1..] == rest;
      if s[0] != x && s[0] != y {
        NonZeroKeepsFirstOrder(s[1..], x, y);
      }
    }
  }

  /** The de-duplicated non-zero values are ordered by their first occurrence in s itself. */
  lemma DedupeNonZeroOrder(s: seq<int>)
    ensures forall x :: x in Dedupe(NonZero(s)) ==> x in s
    ensures forall i, j :: 0 <= i < j < |Dedupe(NonZero(s))| ==>
              FirstIndex(s, Dedupe(NonZero(s))[i]) < FirstIndex(s, Dedupe(NonZero(s))[j])
  {
    var d := Dedupe(NonZero(s));
    DedupeSpec(NonZero(s));
    forall i, j | 0 <= i < j < |d| ensures FirstIndex(s, d[i]) < FirstIndex(s, d[j]) {
      NonZeroKeepsFirstOrder(s, d[i], d[j]);
    }
  }

  /** What one posted entry contributes: nothing when its key's `absint` is 0, its value is
      not an array, or no positive id is left; otherwise the cleaned list under that key. */
  function Contribution(e: RawDuty): Option<DutyOfficials> {
    var duty := AbsInt(e.key);
    if duty <= 0 || e.value.NotAList? then None
    else
      var ids := CleanIds(e.value.ids);
      if ids == [] then None else Some(DutyOfficials(duty, ids))
  }

  /** `$map[$e.duty] = $e.officials`: replaces the value in place when the key exists,
      otherwise appends. */
  function Put(m: OfficialsMap, e: DutyOfficials): OfficialsMap {
    if m == [] then [e]
    else if m[0].duty == e.duty then [e] + m[1..]
    else [m[0]] + Put(m[1..], e)
  }

  predicate HasKey(m: OfficialsMap, k: int) {
    exists i :: 0 <= i < |m| && m[i].duty == k
  }

  /** The value stored under key k. */
  function Lookup(m: OfficialsMap, k: int): Option<seq<int>> {
    if m == [] then None
    else if m[0].duty == k then Some(m[0].officials)
    else Lookup(m[1..], k)
  }

  /** The shape the save handler promises: distinct positive keys, each with a non-empty
      list of distinct positive ids. */
  predicate WellFormed(m: OfficialsMap) {
    && (forall i, j :: 0 <= i < j < |m| ==> m[i].duty != m[j].duty)
    && (forall i :: 0 <= i < |m| ==> WellFormedEntry(m[i]))
  }

  predicate WellFormedEntry(e: DutyOfficials) {
    e.duty > 0 && e.officials != [] && Distinct(e.officials) && forall x :: x in e.officials ==> x > 0
  }

  /** The cleaned array the save loop builds from the posted entries, in order. */
  function Clean(raw: seq<RawDuty>): OfficialsMap {
    if raw == [] then []
    else
      var acc := Clean(raw[..|raw| - 1]);
      match Contribution(raw[|raw| - 1])
      case None => acc
      case Some(e) => Put(acc, e)
  }

  lemma PutSpec(m: OfficialsMap, e: DutyOfficials)
    ensures forall k :: k != e.duty ==> Lookup(Put(m, e), k) == Lookup(m, k)
    ensures Lookup(Put(m, e), e.duty) == Some(e.officials)
    ensures Lookup(m, e.duty).None? ==> Put(m, e) == m + [e]
    ensures Lookup(m, e.duty).Some? ==> |Put(m, e)| == |m|
    ensures WellFormed(m) && WellFormedEntry(e) ==> WellFormed(Put(m, e))
  {
    PutLookup(m, e);
    if WellFormed(m) && WellFormedEntry(e) {
      PutWellFormed(m, e);
    }
  }

  /** The lookups and the length after a keyed assignment. */
  lemma {:induction false} PutLookup(m: OfficialsMap, e: DutyOfficials)
    ensures forall k :: k != e.duty ==> Lookup(Put(m, e), k) == Lookup(m, k)
    ensures Lookup(Put(m, e), e.duty) == Some(e.officials)
    ensures Lookup(m, e.duty).None? ==> Put(m, e) == m + [e]
    ensures Lookup(m, e.duty).Some? ==> |Put(m, e)| == |m|
  {
    if m != [] && m[0].duty != e.duty {
      PutLookup(m[1..], e);
      assert m == [m[0]] + m[1..];
    }
  }

  /** A keyed assignment keeps the map well formed. */
  lemma {:induction false} PutWellFormed(m: OfficialsMap, e: DutyOfficials)
    requires WellFormed(m) && WellFormedEntry(e)
    ensures WellFormed(Put(m, e))
  {
    if m != [] && m[0].duty != e.duty {
      assert WellFormed(m[1..]);
      PutWellFormed(m[1..], e);
      var r := Put(m[1..], e);
      PutLookup(m[1..], e);
      LookupKeys(m[1..], m[0].duty);
      LookupKeys(r, m[0].duty);
      assert !HasKey(m[1..], m[0].duty);
      assert !HasKey(r, m[0].duty);
    } else if m != [] {
      assert forall i :: 1 <= i < |m| ==> m[i].duty != e.duty;
    }
  }

  /** A key has a value exactly when it occurs. */
  lemma {:induction false} LookupKeys(m: OfficialsMap, k: int)
    ensures Lookup(m, k).Some? <==> HasKey(m, k)
  {
    if m != [] && m[0].duty != k {
      LookupKeys(m[1..], k);
      if HasKey(m, k) {
        var i :| 0 <= i < |m| && m[i].duty == k;
        assert m[1..][i - 1].duty == k;
      }
      if HasKey(m[1..], k) {
        var i :| 0 <= i < |m[1..]| && m[1..][i].duty == k;
        assert m[i + 1].duty == k;
      }
    }
  }

  /** Entry r contributes a list under duty k. */
  predicate ContributesTo(r: RawDuty, k: int) {
    Contribution(r).Some? && Contribution(r).value.duty == k
  }

  lemma ContributionWellFormed(r: RawDuty)
    ensures Contribution(r).Some? ==> WellFormedEntry(Contribution(r).value)
  {
  }

  /** Whatever is posted, the cleaned array has distinct positive keys and non-empty lists
      of distinct positive ids. */
  lemma {:induction false} CleanWellFormed(raw: seq<RawDuty>)
    ensures WellFormed(Clean(raw))
  {
    if raw != [] {
      CleanWellFormed(raw[..|raw| - 1]);
      ContributionWellFormed(raw[|raw| - 1]);
      match Contribution(raw[|raw| - 1]) {
        case None =>
        case Some(e) => PutSpec(Clean(raw[..|raw| - 1]), e);
      }
    }
  }

  /** The last entry that contributes to a duty decides its list: a later entry with the same
      `absint` key overwrites an earlier one, and entries that contribute nothing do not. */
  lemma {:induction false} CleanLastContributionWins(raw: seq<RawDuty>, i: int)
    requires 0 <= i < |raw| && Contribution(raw[i]).Some?
    requires forall j :: i < j < |raw| ==> !ContributesTo(raw[j], Contribution(raw[i]).value.duty)
    ensures Lookup(Clean(raw), Contribution(raw[i]).value.duty) == Some(Contribution(raw[i]).value.officials)
  {
    var e := Contribution(raw[i]).value;
    var p := raw[..|raw| - 1];
    if i == |raw| - 1 {
      PutSpec(Clean(p), e);
    } else {
      assert !ContributesTo(raw[|raw| - 1], e.duty);
      CleanLastContributionWins(p, i);
      match Contribution(raw[|raw| - 1]) {
        case None =>
        case Some(e') => PutSpec(Clean(p), e');
      }
    }
  }

  /** Every duty in the cleaned array comes from a posted entry that contributes that list. */
  lemma {:induction false} CleanKeyHasSource(raw: seq<RawDuty>, k: int)
    requires Lookup(Clean(raw), k).Some?
    ensures exists i :: 0 <= i < |raw| && Contribution(raw[i]) == Some(DutyOfficials(k, Lookup(Clean(raw), k).value))
  {
    var p := raw[..|raw| - 1];
    var last := raw[|raw| - 1];
    if raw == [] {
    } else if Contribution(last).Some? && Contribution(last).value.duty == k {
      PutSpec(Clean(p), Contribution(last).value);
      assert Contribution(raw[|raw| - 1]) == Some(DutyOfficials(k, Lookup(Clean(raw), k).value));
    } else {
      match Contribution(last) {
        case None =>
        case Some(e') => PutSpec(Clean(p), e');
      }
      assert Lookup(Clean(raw), k) == Lookup(Clean(p), k);
      CleanKeyHasSource(p, k);
      var i :| 0 <= i < |p| && Contribution(p[i]) == Some(DutyOfficials(k, Lookup(Clean(p), k).value));
      assert raw[i] == p[i];
    }
  }

  /** An array of positive ids is its own absint image and has nothing to filter. */
  lemma PositiveIdsUnchanged(ids: seq<int>)
    requires forall x :: x in ids ==> x > 0
    ensures AbsAll(ids) == ids && NonZero(ids) == ids
  {
    forall i | 0 <= i < |ids| ensures AbsAll(ids)[i] == ids[i] {
      assert ids[i] in ids;
    }
    NonZeroOfPositive(ids);
  }

  lemma {:induction false} NonZeroOfPositive(s: seq<int>)
    requires forall x :: x in s ==> x > 0
    ensures NonZero(s) == s
  {
    if s != [] {
      assert s[0] in s;
      assert forall x :: x in s[1..] ==> x in s;
      NonZeroOfPositive(s[1..]);
      assert s == [s[0]] + s[1..];
    }
  }

  lemma {:induction false} NonZeroOfZeros(s: seq<int>)
    requires forall x :: x in s ==> x == 0
    ensures NonZero(s) == []
  {
    if s != [] {
      assert s[0] in s;
      assert forall x :: x in s[1..] ==> x in s;
      NonZeroOfZeros(s[1..]);
    }
  }

  /** A well-formed entry, posted back, contributes itself. */
  lemma ContributionOfCleanEntry(e: DutyOfficials)
    requires WellFormedEntry(e)
    ensures Contribution(RawDuty(e.duty, IdList(e.officials))) == Some(e)
  {
    PositiveIdsUnchanged(e.officials);
    DedupeOfDistinct(e.officials);
  }

  /** The posted form of an already clean array: each duty key with its id list. */
  function AsPosted(m: OfficialsMap): (raw: seq<RawDuty>)
    ensures |raw| == |m| && forall i :: 0 <= i < |m| ==> raw[i] == RawDuty(m[i].duty, IdList(m[i].officials))
  {
    seq(|m|, i requires 0 <= i < |m| => RawDuty(m[i].duty, IdList(m[i].officials)))
  }

  /** Cleaning an already clean array gives it back unchanged. */
  lemma {:induction false} CleanIdempotent(m: OfficialsMap)
    requires WellFormed(m)
    ensures Clean(AsPosted(m)) == m
  {
    if m != [] {
      var p := m[..|m| - 1];
      var e := m[|m| - 1];
      var raw := AsPosted(m);
      WellFormedLast(m);
      assert raw[..|m| - 1] == AsPosted(p);
      CleanIdempotent(p);
      ContributionOfCleanEntry(e);
      assert Clean(raw) == Put(p, e);
      LookupKeys(p, e.duty);
      PutLookup(p, e);
      assert m == p + [e];
    }
  }

  /** A well-formed map minus its last entry is well formed and does not hold that key. */
  lemma WellFormedLast(m: OfficialsMap)
    requires WellFormed(m) && m != []
    ensures WellFormed(m[..|m| - 1]) && WellFormedEntry(m[|m| - 1])
    ensures !HasKey(m[..|m| - 1], m[|m| - 1].duty)
  {
  }

  /** The hidden `value="0"` input posted first for every duty changes nothing, and a duty
      whose posted ids are all 0 is dropped. */
  lemma HiddenZeroIgnored(key: int, ids: seq<int>)
    ensures CleanIds([0] + ids) == CleanIds(ids)
    ensures (forall x :: x in ids ==> x == 0) ==> Contribution(RawDuty(key, IdList([0] + ids))).None?
  {
    assert AbsAll([0] + ids) == [0] + AbsAll(ids);
    assert ([0] + AbsAll(ids))[1..] == AbsAll(ids);
    if forall x :: x in ids ==> x == 0 {
      forall x | x in AbsAll(ids) ensures x == 0 {
        var i :| 0 <= i < |ids| && AbsAll(ids)[i] == x;
        assert ids[i] in ids;
      }
      NonZeroOfZeros(AbsAll(ids));
    }
  }

  /** The save loop: walks the posted entries in order, skipping bad keys and non-arrays,
      and stores each non-empty cleaned list under its duty. */
  method CleanOfficials(raw: seq<RawDuty>) returns (clean: OfficialsMap)
    ensures clean == Clean(raw)
    ensures WellFormed(clean)
  {
    clean := [];
    for i := 0 to |raw|
      invariant clean == Clean(raw[..i])
    {
      assert raw[..i + 1][..i] == raw[..i];
      var entry := raw[i];
      var duty := AbsInt(entry.key);
      if duty <= 0 || entry.value.NotAList? {
        continue;
      }
      var ids := CleanIds(entry.value.ids);
      if ids != [] {
        clean := Put(clean, DutyOfficials(duty, ids));
      }
    }
    assert raw[..|raw|] == raw;
    CleanWellFormed(raw);
  }

  /** What the save handler reads from the request and from WordPress. */
  datatype SaveRequest = SaveRequest(
    postIsEmpty: bool,                    // empty($_POST)
    isRevision: bool,                     // wp_is_post_revision
    doingAutosave: bool,                  // DOING_AUTOSAVE defined and true
    postType: Option<string>,             // get_post_type
    canEdit: bool,                        // current_user_can('edit_post', id)
    nonce: string,                        // the sanitised nonce field, '' when absent
    nonceVerifies: bool,                  // wp_verify_nonce's verdict on that nonce
    officials: Option<seq<RawDuty>>)      // tony_sp_officials; None when absent or not an array

  /** The guard chain: the meta is written only when every check passes. */
  predicate SaveAllowed(r: SaveRequest) {
    && !r.postIsEmpty
    && !r.isRevision && !r.doingAutosave
    && r.postType == Some("sp_event")
    && r.canEdit
    && r.nonce != "" && r.nonceVerifies
  }

  /** A stored `sp_officials` meta value. */
  datatype MetaValue = OfficialsArray(entries: OfficialsMap) | NotAnArray

  /** The `sp_officials` post meta of every post. */
  class EventOfficialsMeta {
    var spOfficials: map<int, MetaValue>

    constructor (stored: map<int, MetaValue>)
      ensures spOfficials == stored
    {
      spOfficials := stored;
    }

    /** `save_post` handler: after the guards, overwrite the post's officials with the
        cleaned posted array, even when that array is empty. */
    method SaveQuickEditOfficials(postId: int, req: SaveRequest)
      modifies this
      ensures !SaveAllowed(req) ==> spOfficials == old(spOfficials)
      ensures SaveAllowed(req) ==>
                spOfficials == old(spOfficials)[postId := OfficialsArray(Clean(req.officials.GetOr([])))]
      ensures SaveAllowed(req) ==> WellFormed(spOfficials[postId].entries)
    {
      if req.postIsEmpty {
        return;
      }
      if req.isRevision || req.doingAutosave {
        return;
      }
      if req.postType != Some("sp_event") {
        return;
      }
      if !req.canEdit {
        return;
      }
      if req.nonce == "" || !req.nonceVerifies {
        return;
      }
      var raw := if req.officials.Some? then req.officials.value else [];
      var clean := CleanOfficials(raw);
      spOfficials := spOfficials[postId := OfficialsArray(clean)];
    }
  }

  /** The officials echoed as hidden data on an event row: only in the `sp_team` column,
      and a stored value that is not an array shows as an empty array. */
  function RowData(column: string, stored: Option<MetaValue>): (data: Option<OfficialsMap>)
    ensures data.Some? <==> column == "sp_team"
    ensures data.Some? && (stored.None? || stored.value.NotAnArray?) ==> data.value == []
    ensures data.Some? && stored.Some? && stored.value.OfficialsArray? ==> data.value == stored.value.entries
  {
    if column != "sp_team" then None
    else if stored.Some? && stored.value.OfficialsArray? then Some(stored.value.entries)
    else Some([])
  }

  datatype Duty = Duty(termId: int, name: string)
  datatype Official = Official(id: int, title: string)

  /** One duty in the Quick Edit field: a hidden input posting `hiddenValue` and one
      checkbox per official, all named `tony_sp_officials[termId][]`. */
  datatype DutyGroup = DutyGroup(duty: Duty, hiddenValue: int, choices: seq<Official>)

  datatype FieldOutput = NothingPrinted | NonceOnly | Fieldset(groups: seq<DutyGroup>)

  /** The Quick Edit field renderer with its function-static `$printed` flag. */
  class QuickEditField {
    var printed: bool

    constructor ()
      ensures !printed
    {
      printed := false;
    }

    /** Prints the nonce and the officials fieldset once per request, for the `sp_team`
        column of events only; with no duties or no officials only the nonce is printed.
        A lookup that failed (a WP_Error) is passed as None. */
    method Render(columnName: string, postType: string, duties: Option<seq<Duty>>, officials: Option<seq<Official>>)
      returns (out: FieldOutput)
      modifies this
      ensures postType != "sp_event" || columnName != "sp_team" ==> out == NothingPrinted && printed == old(printed)
      ensures postType == "sp_event" && columnName == "sp_team" ==> printed
      ensures old(printed) ==> out == NothingPrinted
      ensures postType == "sp_event" && columnName == "sp_team" && !old(printed) ==>
                out == if duties.None? || duties.value == [] || officials.None? || officials.value == [] then NonceOnly
                       else Fieldset(seq(|duties.value|, i requires 0 <= i < |duties.value| => DutyGroup(duties.value[i], 0, officials.value)))
    {
      if postType != "sp_event" || columnName != "sp_team" {
        return NothingPrinted;
      }
      if printed {
        return NothingPrinted;
      }
      printed := true;
      if duties.None? || duties.value == [] {
        return NonceOnly;
      }
      if officials.None? || officials.value == [] {
        return NonceOnly;
      }
      var groups: seq<DutyGroup> := [];
      for i := 0 to |duties.value|
        invariant |groups| == i && forall j :: 0 <= j < i ==> groups[j] == DutyGroup(duties.value[j], 0, officials.value)
      {
        groups := groups + [DutyGroup(duties.value[i], 0, officials.value)];
      }
      out := Fieldset(groups);
    }
  }

  /** What submitting the field posts: for each duty, its hidden 0 followed by the ids of
      the ticked officials. */
  function Submission(groups: seq<DutyGroup>, ticked: seq<seq<int>>): (raw: seq<RawDuty>)
    requires |ticked| == |groups|
    ensures |raw| == |groups|
  {
    seq(|groups|, i requires 0 <= i < |groups| => RawDuty(groups[i].duty.termId, IdList([groups[i].hiddenValue] + ticked[i])))
  }

  /** Saving the rendered field stores, for each duty with distinct positive term ids, the
      ticked officials without repeats, and no entry for a duty with nothing ticked. */
  lemma SubmittedFieldSaved(duties: seq<Duty>, officials: seq<Official>, ticked: seq<seq<int>>, d: int)
    requires |ticked| == |duties| && 0 <= d < |duties|
    requires forall i :: 0 <= i < |duties| ==> duties[i].termId > 0
    requires forall i, j :: 0 <= i < j < |duties| ==> duties[i].termId != duties[j].termId
    requires forall i, x :: 0 <= i < |ticked| && x in ticked[i] ==> x > 0
    ensures var groups := seq(|duties|, i requires 0 <= i < |duties| => DutyGroup(duties[i], 0, officials));
            Lookup(Clean(Submission(groups, ticked)), duties[d].termId)
              == if ticked[d] == [] then None else Some(Dedupe(ticked[d]))
  {
    var groups := seq(|duties|, i requires 0 <= i < |duties| => DutyGroup(duties[i], 0, officials));
    var raw := Submission(groups, ticked);
    var k := duties[d].termId;
    forall i | 0 <= i < |raw|
      ensures Contribution(raw[i]) == if ticked[i] == [] then None else Some(DutyOfficials(duties[i].termId, Dedupe(ticked[i])))
    {
      HiddenZeroIgnored(duties[i].termId, ticked[i]);
      PositiveIdsUnchanged(ticked[i]);
      assert raw[i] == RawDuty(duties[i].termId, IdList([0] + ticked[i]));
    }
    if ticked[d] == [] {
      if Lookup(Clean(raw), k).Some? {
        CleanKeyHasSource(raw, k);
      }
    } else {
      CleanLastContributionWins(raw, d);
    }
  }
}
