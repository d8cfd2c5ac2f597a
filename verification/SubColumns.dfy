/**
 * Layout rules of a grouping-phase kanban column split into sub-columns:
 * how many sub-columns fit, the round-robin assignment of reflection
 * groups to sub-columns in the client store, and the collapse/expand
 * toggle. Element measurements and the layout constants are inputs.
 */
module SubColumns {
  import opened Wrappers

  const DefaultExpandedSubColumns := 2
  const DefaultSubColumns := 1

  /** `[...Array(count).keys()]`: the index of every sub-column. */
  function SubColumnIndexes(count: nat): (r: seq<nat>)
    ensures |r| == count
    ensures forall i :: 0 <= i < count ==> r[i] == i
  {
    if count == 0 then [] else SubColumnIndexes(count - 1) + [count - 1]
  }

  /** The measurements of the column body element. */
  datatype ColumnBody = ColumnBody(scrollHeight: nat, clientHeight: nat)

  /** ElementHeight.REFLECTION_CARD and ElementWidth.REFLECTION_COLUMN. */
  datatype Layout = Layout(reflectionCardHeight: nat, reflectionColumnWidth: nat)

  /** Math.ceil(a / d) for a positive divisor. */
  function CeilDiv(a: nat, d: nat): (q: nat)
    requires d > 0
    ensures q * d >= a
    ensures q > 0 ==> (q - 1) * d < a
  {
    var q := (a + d - 1) / d;
    assert a + d - 1 == q * d + (a + d - 1) % d;
    assert (q - 1) * d == q * d - d;
    q
  }

  /** getMaxSubColumnCount: two without an element; otherwise as many
      sub-columns as the scroll height needs, given the usable height of
      one, and at least two. A negative usable height makes the quotient
      non-positive, so the answer is two. */
  function MaxSubColumnCount(columnBody: Option<ColumnBody>, layout: Layout): (r: nat)
    requires columnBody.Some? ==> columnBody.value.clientHeight != layout.reflectionCardHeight
    ensures r >= DefaultExpandedSubColumns
    ensures columnBody.None? ==> r == DefaultExpandedSubColumns
    ensures columnBody.Some? && columnBody.value.clientHeight < layout.reflectionCardHeight ==>
      r == DefaultExpandedSubColumns
    ensures columnBody.Some? && columnBody.value.clientHeight > layout.reflectionCardHeight ==>
      var usable := columnBody.value.clientHeight - layout.reflectionCardHeight;
      && r * usable >= columnBody.value.scrollHeight
      && (r > DefaultExpandedSubColumns ==> (r - 1) * usable < columnBody.value.scrollHeight)
  {
    match columnBody
    case None => DefaultExpandedSubColumns
    case Some(el) =>
      if el.clientHeight < layout.reflectionCardHeight then DefaultExpandedSubColumns
      else
        var maxSubColumnCount := CeilDiv(el.scrollHeight, el.clientHeight - layout.reflectionCardHeight);
        if maxSubColumnCount < DefaultExpandedSubColumns then DefaultExpandedSubColumns else maxSubColumnCount
  }

  /** floor(floor(a / b) / c) is the largest n with n * (b * c) <= a. */
  lemma FloorDivDiv(a: nat, b: nat, c: nat, n: nat)
    requires b > 0 && c > 0 && n == a / b / c
    ensures n * (b * c) <= a
    ensures (n + 1) * (b * c) > a
  {
    var p := a / b;
    DivBounds(a, b);
    DivBounds(p, c);
    MulMonotone(n * c, p, b);
    MulMonotone(p + 1, n * c + c, b);
    MulRegroup(n, b, c);
    MulRegroup(n + 1, b, c);
    assert (p + 1) * b == p * b + b;
    assert (n + 1) * c == n * c + c;
  }

  lemma DivBounds(x: nat, d: nat)
    requires d > 0
    ensures (x / d) * d <= x < (x / d) * d + d
  {
  }

  lemma MulRegroup(x: nat, y: nat, z: nat)
    ensures x * (y * z) == (x * z) * y
  {
  }

  lemma MulMonotone(x: nat, y: nat, k: nat)
    requires x <= y
    ensures x * k <= y * k
  {
  }

  /** floor(floor(phaseWidth / REFLECTION_COLUMN) / reflectPromptsCount):
      the largest number of sub-columns whose width, repeated for every
      prompt column, fits in the phase. */
  function SubColumnsPerColumn(phaseWidth: nat, reflectPromptsCount: nat, layout: Layout): (n: nat)
    requires layout.reflectionColumnWidth > 0 && reflectPromptsCount > 0
    ensures n * (layout.reflectionColumnWidth * reflectPromptsCount) <= phaseWidth
    ensures (n + 1) * (layout.reflectionColumnWidth * reflectPromptsCount) > phaseWidth
  {
    var n := phaseWidth / layout.reflectionColumnWidth / reflectPromptsCount;
    FloorDivDiv(phaseWidth, layout.reflectionColumnWidth, reflectPromptsCount, n);
    n
  }

  /** getInitialSubColumnCount: the sub-columns that fit, capped by the
      maximum count. */
  function InitialSubColumnCount(phaseWidth: nat, reflectPromptsCount: nat, columnBody: Option<ColumnBody>, layout: Layout): (r: nat)
    requires layout.reflectionColumnWidth > 0 && reflectPromptsCount > 0
    requires columnBody.Some? ==> columnBody.value.clientHeight != layout.reflectionCardHeight
    ensures r <= MaxSubColumnCount(columnBody, layout)
    ensures r <= SubColumnsPerColumn(phaseWidth, reflectPromptsCount, layout)
    ensures r == MaxSubColumnCount(columnBody, layout) || r == SubColumnsPerColumn(phaseWidth, reflectPromptsCount, layout)
  {
    var maxSubColumnsPerColumn := SubColumnsPerColumn(phaseWidth, reflectPromptsCount, layout);
    var maxSubColumnCount := MaxSubColumnCount(columnBody, layout);
    if maxSubColumnCount <= maxSubColumnsPerColumn then maxSubColumnCount else maxSubColumnsPerColumn
  }

  /** The initial count never needs more width than the phase has, and is
      below the maximum only when one more sub-column would not fit. */
  lemma InitialSubColumnCountFits(phaseWidth: nat, reflectPromptsCount: nat, columnBody: Option<ColumnBody>, layout: Layout)
    requires layout.reflectionColumnWidth > 0 && reflectPromptsCount > 0
    requires columnBody.Some? ==> columnBody.value.clientHeight != layout.reflectionCardHeight
    ensures var r := InitialSubColumnCount(phaseWidth, reflectPromptsCount, columnBody, layout);
      && r * (layout.reflectionColumnWidth * reflectPromptsCount) <= phaseWidth
      && (r < MaxSubColumnCount(columnBody, layout) ==>
            (r + 1) * (layout.reflectionColumnWidth * reflectPromptsCount) > phaseWidth)
  {
    var r := InitialSubColumnCount(phaseWidth, reflectPromptsCount, columnBody, layout);
    var n := SubColumnsPerColumn(phaseWidth, reflectPromptsCount, layout);
    MulMonotone(r, n, layout.reflectionColumnWidth * reflectPromptsCount);
  }

  /** The counter step of sortSubColumns: wrap to 0 after the last index. */
  function NextSubColumnIdx(idx: int, maxSubColumns: int): (r: int)
    ensures 0 <= idx < maxSubColumns ==> 0 <= r < maxSubColumns && r == (idx + 1) % maxSubColumns
  {
    if idx == maxSubColumns - 1 then 0 else idx + 1
  }

  /** The index given to the k-th group found in the store (0-based). */
  function Slot(k: nat, maxSubColumns: int): (r: int)
    ensures maxSubColumns >= 1 ==> 0 <= r < maxSubColumns
  {
    if k == 0 then 0 else NextSubColumnIdx(Slot(k - 1, maxSubColumns), maxSubColumns)
  }

  /** With at least one sub-column the assignment is round robin. */
  lemma {:induction false} SlotIsRoundRobin(k: nat, maxSubColumns: int)
    requires maxSubColumns >= 1
    ensures Slot(k, maxSubColumns) == k % maxSubColumns
    ensures 0 <= Slot(k, maxSubColumns) < maxSubColumns
  {
    if k > 0 {
      SlotIsRoundRobin(k - 1, maxSubColumns);
      ModStep(k - 1, maxSubColumns);
    }
  }

  /** The remainder steps like the counter: up by one, wrapping to 0. */
  lemma ModStep(j: nat, m: int)
    requires m >= 1
    ensures (j + 1) % m == if j % m == m - 1 then 0 else j % m + 1
  {
    var q, s := j / m, j % m;
    assert j == q * m + s;
    if s == m - 1 {
      assert (q + 1) * m == q * m + m;
      ModUnique(j + 1, q + 1, 0, m);
    } else {
      ModUnique(j + 1, q, s + 1, m);
    }
  }

  lemma ModUnique(k: int, q: int, s: int, m: int)
    requires m >= 1 && 0 <= s < m && k == q * m + s
    ensures k % m == s
  {
    var q', s' := k / m, k % m;
    assert k == q' * m + s';
    assert (q - q') * m == s' - s;
    if q > q' {
      MulMonotone(1, q - q', m);
    } else if q < q' {
      MulMonotone(1, q' - q, m);
    }
  }

  /** A reflection group record of the client store: the sub-column index
      and the record's other fields, which the layout never writes. */
  datatype StoreRecord = StoreRecord(subColumnIdx: int, otherFields: map<string, string>)

  /** How many of the listed groups are present in the store. */
  function CountFound(records: map<string, StoreRecord>, groupIds: seq<string>): nat
    decreases |groupIds|
  {
    if groupIds == [] then 0
    else CountFound(records, groupIds[..|groupIds| - 1]) + (if groupIds[|groupIds| - 1] in records then 1 else 0)
  }

  /** The store after sortSubColumns: walking the groups in order, each one
      present in the store gets the next slot; absent ones are skipped. */
  function SortedRecords(records: map<string, StoreRecord>, groupIds: seq<string>, maxSubColumns: int): (r: map<string, StoreRecord>)
    ensures r.Keys == records.Keys
    decreases |groupIds|
  {
    if groupIds == [] then records
    else
      var init, id := groupIds[..|groupIds| - 1], groupIds[|groupIds| - 1];
      var before := SortedRecords(records, init, maxSubColumns);
      if id in before then before[id := before[id].(subColumnIdx := Slot(CountFound(records, init), maxSubColumns))]
      else before
  }

  /** A record that no listed group names is left as it was. */
  lemma {:induction false} SortedRecordsUntouched(records: map<string, StoreRecord>, groupIds: seq<string>, maxSubColumns: int, id: string)
    requires id in records
    requires forall j :: 0 <= j < |groupIds| ==> groupIds[j] != id
    ensures SortedRecords(records, groupIds, maxSubColumns)[id] == records[id]
    decreases |groupIds|
  {
    if groupIds != [] {
      SortedRecordsUntouched(records, groupIds[..|groupIds| - 1], maxSubColumns, id);
    }
  }

  /** The group at position j (its last listing) gets the slot of the
      number of groups found before it; nothing else in its record changes. */
  lemma {:induction false} SortedRecordsAssigns(records: map<string, StoreRecord>, groupIds: seq<string>, maxSubColumns: int, j: nat)
    requires j < |groupIds| && groupIds[j] in records
    requires forall j' :: j < j' < |groupIds| ==> groupIds[j'] != groupIds[j]
    ensures SortedRecords(records, groupIds, maxSubColumns)[groupIds[j]] ==
      records[groupIds[j]].(subColumnIdx := Slot(CountFound(records, groupIds[..j]), maxSubColumns))
    decreases |groupIds|
  {
    var init := groupIds[..|groupIds| - 1];
    if j < |groupIds| - 1 {
      SortedRecordsAssigns(records, init, maxSubColumns, j);
      assert init[..j] == groupIds[..j];
    } else {
      assert init == groupIds[..j];
      SortedRecordsRecordFields(records, init, maxSubColumns, groupIds[j]);
    }
  }

  /** Sorting only ever writes subColumnIdx. */
  lemma {:induction false} SortedRecordsRecordFields(records: map<string, StoreRecord>, groupIds: seq<string>, maxSubColumns: int, id: string)
    requires id in records
    ensures SortedRecords(records, groupIds, maxSubColumns)[id].otherFields == records[id].otherFields
    decreases |groupIds|
  {
    if groupIds != [] {
      SortedRecordsRecordFields(records, groupIds[..|groupIds| - 1], maxSubColumns, id);
    }
  }

  /** With at least one sub-column every assigned index is in range. */
  lemma {:induction false} SortedRecordsInRange(records: map<string, StoreRecord>, groupIds: seq<string>, maxSubColumns: int, id: string)
    requires maxSubColumns >= 1
    requires id in records
    requires exists j :: 0 <= j < |groupIds| && groupIds[j] == id
    ensures 0 <= SortedRecords(records, groupIds, maxSubColumns)[id].subColumnIdx < maxSubColumns
    decreases |groupIds|
  {
    var init, last := groupIds[..|groupIds| - 1], groupIds[|groupIds| - 1];
    if last == id {
      SlotIsRoundRobin(CountFound(records, init), maxSubColumns);
    } else {
      var j :| 0 <= j < |groupIds| && groupIds[j] == id;
      assert init[j] == id;
      SortedRecordsInRange(records, init, maxSubColumns, id);
    }
  }

  /** The client store that commitLocalUpdate writes into. */
  class RelayStore {
    var records: map<string, StoreRecord>

    constructor (records: map<string, StoreRecord>)
      ensures this.records == records
    {
      this.records := records;
    }
  }

  /** sortSubColumns: assign the listed groups round robin over
      maxSubColumns sub-columns, skipping the ones missing from the store. */
  method SortSubColumns(store: RelayStore, reflectionGroups: seq<string>, maxSubColumns: int)
    modifies store
    ensures store.records == SortedRecords(old(store.records), reflectionGroups, maxSubColumns)
  {
    var nextSubColumnIdx := 0;
    var i := 0;
    while i < |reflectionGroups|
      invariant 0 <= i <= |reflectionGroups|
      invariant store.records == SortedRecords(old(store.records), reflectionGroups[..i], maxSubColumns)
      invariant nextSubColumnIdx == Slot(CountFound(old(store.records), reflectionGroups[..i]), maxSubColumns)
    {
      assert reflectionGroups[..i + 1][..i] == reflectionGroups[..i];
      var id := reflectionGroups[i];
      if id in store.records {
        store.records := store.records[id := store.records[id].(subColumnIdx := nextSubColumnIdx)];
        nextSubColumnIdx := NextSubColumnIdx(nextSubColumnIdx, maxSubColumns);
      }
      i := i + 1;
    }
    assert reflectionGroups[..i] == reflectionGroups;
  }

  /** The collapse/expand switch: from one sub-column to the maximum,
      from anything else back to one. */
  function ToggledCount(subColumnCount: nat, maxSubColumnCount: nat): (r: nat)
    ensures r == DefaultSubColumns || r == maxSubColumnCount
    ensures maxSubColumnCount >= DefaultExpandedSubColumns ==> (r > 1 <==> subColumnCount == 1)
  {
    if subColumnCount == 1 then maxSubColumnCount else DefaultSubColumns
  }

  /** Toggling flips the expanded flag of a column that has at least one
      sub-column, and toggling twice from collapsed comes back to collapsed. */
  lemma ToggleFlipsExpanded(subColumnCount: nat, columnBody: Option<ColumnBody>, layout: Layout)
    requires subColumnCount >= 1
    requires columnBody.Some? ==> columnBody.value.clientHeight != layout.reflectionCardHeight
    ensures var max := MaxSubColumnCount(columnBody, layout);
      && (ToggledCount(subColumnCount, max) > 1 <==> !(subColumnCount > 1))
      && (subColumnCount == 1 ==> ToggledCount(ToggledCount(subColumnCount, max), max) == 1)
  {
  }

  /** The hook's own state. */
  class SubColumnsHook {
    var subColumnCount: nat

    constructor ()
      ensures subColumnCount == DefaultSubColumns
    {
      subColumnCount := DefaultSubColumns;
    }

    /** The first value the hook returns. */
    function IsExpanded(): bool
      reads this
    {
      subColumnCount > 1
    }

    /** The third value the hook returns. */
    function Indexes(): seq<nat>
      reads this
    {
      SubColumnIndexes(subColumnCount)
    }

    /** toggleWidth: expand to the maximum and re-sort, or collapse to one.
        The maximum is only needed, and only computed, when expanding. */
    method ToggleWidth(columnBody: Option<ColumnBody>, layout: Layout, store: RelayStore, reflectionGroups: seq<string>)
      requires subColumnCount == 1 && columnBody.Some? ==> columnBody.value.clientHeight != layout.reflectionCardHeight
      modifies this, store
      ensures old(subColumnCount) == 1 ==>
        && subColumnCount == MaxSubColumnCount(columnBody, layout)
        && store.records == SortedRecords(old(store.records), reflectionGroups, subColumnCount)
      ensures old(subColumnCount) != 1 ==>
        subColumnCount == DefaultSubColumns && store.records == old(store.records)
    {
      if subColumnCount == 1 {
        var maxSubColumnCount := MaxSubColumnCount(columnBody, layout);
        subColumnCount := maxSubColumnCount;
        SortSubColumns(store, reflectionGroups, maxSubColumnCount);
      } else {
        subColumnCount := 1;
      }
    }

    /** The layout effect run when the phase width changes: nothing when the
        width is unknown or zero; otherwise take the initial count and
        re-sort when it is more than one. */
    method LayoutEffect(phaseWidth: Option<nat>, reflectPromptsCount: nat, columnBody: Option<ColumnBody>,
                        layout: Layout, store: RelayStore, reflectionGroups: seq<string>)
      requires phaseWidth.Some? && phaseWidth.value > 0 ==>
        && layout.reflectionColumnWidth > 0 && reflectPromptsCount > 0
        && (columnBody.Some? ==> columnBody.value.clientHeight != layout.reflectionCardHeight)
      modifies this, store
      ensures (phaseWidth.None? || phaseWidth.value == 0) ==>
        subColumnCount == old(subColumnCount) && store.records == old(store.records)
      ensures phaseWidth.Some? && phaseWidth.value > 0 ==>
        && subColumnCount == InitialSubColumnCount(phaseWidth.value, reflectPromptsCount, columnBody, layout)
        && store.records == if subColumnCount > 1
             then SortedRecords(old(store.records), reflectionGroups, subColumnCount)
             else old(store.records)
    {
      if phaseWidth.None? || phaseWidth.value == 0 {
        return;
      }
      var initialSubColumnCount := InitialSubColumnCount(phaseWidth.value, reflectPromptsCount, columnBody, layout);
      subColumnCount := initialSubColumnCount;
      if initialSubColumnCount > 1 {
        SortSubColumns(store, reflectionGroups, initialSubColumnCount);
      }
    }
  }

  /** A phase narrower than one sub-column per prompt column gives an
      initial count of zero: no sub-column index is rendered, and a toggle
      from there goes to one, so the column reads as collapsed before and
      after. */
  lemma ZeroSubColumnsReachable()
    ensures InitialSubColumnCount(500, 2, None, Layout(0, 320)) == 0
    ensures SubColumnIndexes(0) == []
    ensures ToggledCount(0, MaxSubColumnCount(None, Layout(0, 320))) == DefaultSubColumns
  {
  }

  /** The expanded flag holds exactly when more than one sub-column index
      is rendered. */
  lemma ExpandedIffSeveralIndexes(hook: SubColumnsHook)
    ensures hook.IsExpanded() <==> |hook.Indexes()| > 1
  {
  }
}
