/** The keys of a multi-key channel and the three maps, keyed by position, that
    follow them while the list shrinks and grows. */
module MultiKey {
  import opened Strings
  import opened ChannelStatus

  type Keys = seq<string>

  /** Channel.GetKeys for keys stored one per line. */
  function KeysIn(column: string): Keys {
    Pieces(column, '\n')
  }

  datatype Info = Info(status: map<int, int>, time: map<int, int>, reason: map<int, string>)

  function StatusAt(info: Info, i: int): int {
    if i in info.status then info.status[i] else ENABLED
  }

  /** What get_key_status shows of a key. */
  datatype Row = Row(key: string, status: int, time: int, reason: string)

  function RowAt(keys: Keys, info: Info, i: nat): Row
    requires i < |keys|
  {
    var s := StatusAt(info, i);
    if s == ENABLED then Row(keys[i], s, 0, "")
    else Row(keys[i], s, if i in info.time then info.time[i] else 0, if i in info.reason then info.reason[i] else "")
  }

  function Rows(keys: Keys, info: Info): (rs: seq<Row>)
    ensures |rs| == |keys| && forall i :: 0 <= i < |keys| ==> rs[i] == RowAt(keys, info, i)
  {
    seq(|keys|, i requires 0 <= i < |keys| => RowAt(keys, info, i))
  }

  /** Two rows are the same exactly when key and status are and, for a key that is not
      enabled, the recorded time and reason. */
  lemma RowsTell(keys: Keys, info: Info, i: nat, keys': Keys, info': Info, j: nat)
    requires i < |keys| && j < |keys'|
    ensures RowAt(keys, info, i) == RowAt(keys', info', j) <==>
            && keys[i] == keys'[j] && StatusAt(info, i) == StatusAt(info', j)
            && (StatusAt(info, i) != 1 ==>
                  && (if i in info.time then info.time[i] else 0) == (if j in info'.time then info'.time[j] else 0)
                  && (if i in info.reason then info.reason[i] else "") ==
                     (if j in info'.reason then info'.reason[j] else ""))
    ensures StatusAt(info, i) == if i in info.status then info.status[i] else 1
  {
  }

  predicate InRange(info: Info, n: int) {
    && (forall i :: i in info.status ==> 0 <= i < n)
    && (forall i :: i in info.time ==> 0 <= i < n)
    && (forall i :: i in info.reason ==> 0 <= i < n)
  }

  /** The rows whose position satisfies p, in order. */
  function Where(rs: seq<Row>, p: (int, Row) -> bool): seq<Row> {
    if rs == [] then []
    else
      var n := |rs| - 1;
      Where(rs[..n], p) + (if p(n, rs[n]) then [rs[n]] else [])
  }

  lemma WhereNext(rs: seq<Row>, i: nat, p: (int, Row) -> bool)
    requires i < |rs|
    ensures p(i, rs[i]) ==> Where(rs[..i + 1], p) == Where(rs[..i], p) + [rs[i]]
    ensures !p(i, rs[i]) ==> Where(rs[..i + 1], p) == Where(rs[..i], p)
  {
    assert rs[..i + 1][..i] == rs[..i];
  }

  lemma {:induction false} WhereUpTo(rs: seq<Row>, k: nat, m: nat)
    requires k <= m <= |rs| && k < |rs|
    ensures Where(rs[..k], (i, r) => i != k) == rs[..k]
    ensures m > k ==> Where(rs[..m], (i, r) => i != k) == rs[..k] + rs[k + 1..m]
  {
    AllBefore(rs, k, k);
    if m > k {
      WhereUpTo(rs, k, m - 1);
      WhereNext(rs, m - 1, (i, r) => i != k);
    }
  }

  lemma {:induction false} AllBefore(rs: seq<Row>, k: nat, m: nat)
    requires m <= k < |rs|
    ensures Where(rs[..m], (i, r) => i != k) == rs[..m]
  {
    if m > 0 {
      AllBefore(rs, k, m - 1);
      WhereNext(rs, m - 1, (i, r) => i != k);
    }
  }

  /** Appending a key together with the entries of its row. */
  lemma AppendRow(keys: Keys, info: Info, key: string, more: Info, row: Row)
    requires InRange(info, |keys|)
    requires forall i :: 0 <= i < |keys| ==> RowAt(keys + [key], more, i) == RowAt(keys, info, i)
    requires RowAt(keys + [key], more, |keys|) == row
    ensures Rows(keys + [key], more) == Rows(keys, info) + [row]
  {
  }

  /** Carry entry i of old over to position j of info, as delete_key does it. */
  function CarryOver(old_: Info, i: int, info: Info, j: int): Info {
    Info(if i in old_.status && old_.status[i] != ENABLED then info.status[j := old_.status[i]] else info.status,
         if i in old_.time then info.time[j := old_.time[i]] else info.time,
         if i in old_.reason then info.reason[j := old_.reason[i]] else info.reason)
  }

  /** ... and as delete_disabled_keys does it: only for keys that are not enabled. */
  function CarryOverDisabled(old_: Info, i: int, info: Info, j: int): Info {
    if StatusAt(old_, i) != ENABLED then
      Info(info.status[j := StatusAt(old_, i)],
           if i in old_.time then info.time[j := old_.time[i]] else info.time,
           if i in old_.reason then info.reason[j := old_.reason[i]] else info.reason)
    else info
  }

  lemma CarryOverShows(keys: Keys, old_: Info, i: nat, kept: Keys, info: Info)
    requires i < |keys| && InRange(info, |kept|)
    ensures var after := CarryOver(old_, i, info, |kept|);
            && InRange(after, |kept| + 1)
            && Rows(kept + [keys[i]], after) == Rows(kept, info) + [RowAt(keys, old_, i)]
    ensures var after := CarryOverDisabled(old_, i, info, |kept|);
            && InRange(after, |kept| + 1)
            && Rows(kept + [keys[i]], after) == Rows(kept, info) + [RowAt(keys, old_, i)]
  {
    AppendRow(kept, info, keys[i], CarryOver(old_, i, info, |kept|), RowAt(keys, old_, i));
    AppendRow(kept, info, keys[i], CarryOverDisabled(old_, i, info, |kept|), RowAt(keys, old_, i));
  }

  /** The rows determine the keys. */
  lemma SameKeys(keys: Keys, info: Info, k: nat, remaining: Keys, newInfo: Info)
    requires k < |keys|
    requires Rows(remaining, newInfo) == Rows(keys, info)[..k] + Rows(keys, info)[k + 1..]
    ensures remaining == keys[..k] + keys[k + 1..]
  {
    assert |remaining| == |keys| - 1;
    forall i | 0 <= i < |remaining|
      ensures remaining[i] == (keys[..k] + keys[k + 1..])[i]
    {
      assert Rows(remaining, newInfo)[i].key == remaining[i];
    }
  }

  const NO_INFO := Info(map[], map[], map[])

  /** Where the entry at position j was before position k was deleted. */
  function Back(j: int, k: int): int {
    if j < k then j else j + 1
  }

  /** The first n entries of a map after position k was deleted. */
  function Moved<V>(m: map<int, V>, k: int, n: nat): map<int, V> {
    map j | 0 <= j < n && Back(j, k) in m :: m[Back(j, k)]
  }

  lemma MovedNext<V>(m: map<int, V>, k: int, n: nat)
    ensures Moved(m, k, n + 1) ==
            if Back(n, k) in m then Moved(m, k, n)[n := m[Back(n, k)]] else Moved(m, k, n)
  {
  }

  /** Times and reasons that have followed the first n remaining keys. */
  ghost predicate MovedUpTo(newInfo: Info, info: Info, k: int, n: nat) {
    newInfo.time == Moved(info.time, k, n) && newInfo.reason == Moved(info.reason, k, n)
  }

  lemma CarryOverMoves(info: Info, i: int, newInfo: Info, n: nat, k: int)
    requires MovedUpTo(newInfo, info, k, n) && i == Back(n, k)
    ensures MovedUpTo(CarryOver(info, i, newInfo, n), info, k, n + 1)
  {
    MovedNext(info.time, k, n);
    MovedNext(info.reason, k, n);
  }

  /** What the loop of delete_key has built after i keys. */
  ghost predicate KeptSoFar(keys: Keys, info: Info, k: int, i: nat, remaining: Keys, newInfo: Info) {
    && i <= |keys| && |remaining| == (if i <= k then i else i - 1) && InRange(newInfo, |remaining|)
    && Rows(remaining, newInfo) == Where(Rows(keys, info)[..i], (j, r) => j != k)
    && MovedUpTo(newInfo, info, k, |remaining|)
  }

  lemma KeepNext(keys: Keys, info: Info, k: int, i: nat, remaining: Keys, newInfo: Info)
    requires KeptSoFar(keys, info, k, i, remaining, newInfo) && i < |keys| && i != k
    ensures KeptSoFar(keys, info, k, i + 1, remaining + [keys[i]], CarryOver(info, i, newInfo, |remaining|))
  {
    WhereNext(Rows(keys, info), i, (j, r) => j != k);
    CarryOverShows(keys, info, i, remaining, newInfo);
    CarryOverMoves(info, i, newInfo, |remaining|, k);
  }

  lemma SkipNext(keys: Keys, info: Info, k: int, remaining: Keys, newInfo: Info)
    requires 0 <= k < |keys| && KeptSoFar(keys, info, k, k, remaining, newInfo)
    ensures KeptSoFar(keys, info, k, k + 1, remaining, newInfo)
  {
    WhereNext(Rows(keys, info), k, (j, r) => j != k);
  }

  lemma KeptAll(keys: Keys, info: Info, k: nat, remaining: Keys, newInfo: Info)
    requires k < |keys| && KeptSoFar(keys, info, k, |keys|, remaining, newInfo)
    ensures Rows(remaining, newInfo) == Rows(keys, info)[..k] + Rows(keys, info)[k + 1..]
    ensures remaining == keys[..k] + keys[k + 1..]
  {
    var rs := Rows(keys, info);
    WhereUpTo(rs, k, |keys|);
    assert rs[k + 1..|keys|] == rs[k + 1..];
    SameKeys(keys, info, k, remaining, newInfo);
  }

  /** The loop of delete_key. */
  method WithoutKey(keys: Keys, info: Info, keyIndex: nat) returns (remaining: Keys, newInfo: Info)
    requires keyIndex < |keys|
    ensures remaining == keys[..keyIndex] + keys[keyIndex + 1..]
    ensures MovedUpTo(newInfo, info, keyIndex, |remaining|)
    ensures InRange(newInfo, |remaining|)
    ensures Rows(remaining, newInfo) == Rows(keys, info)[..keyIndex] + Rows(keys, info)[keyIndex + 1..]
  {
    remaining, newInfo := [], NO_INFO;
    var newIndex := 0;
    var i := 0;
    while i < |keys|
      invariant 0 <= i <= |keys| && newIndex == |remaining|
      invariant KeptSoFar(keys, info, keyIndex, i, remaining, newInfo)
    {
      if i != keyIndex {
        KeepNext(keys, info, keyIndex, i, remaining, newInfo);
        newInfo := CarryOver(info, i, newInfo, newIndex);
        remaining := remaining + [keys[i]];
        newIndex := newIndex + 1;
      } else {
        SkipNext(keys, info, keyIndex, remaining, newInfo);
      }
      i := i + 1;
    }
    KeptAll(keys, info, keyIndex, remaining, newInfo);
  }

  predicate Survives(i: int, r: Row) {
    r.status != AUTO_DISABLED
  }

  /** No key was ever disabled automatically. */
  predicate NothingTimed(info: Info) {
    info.time == map[] && info.reason == map[]
  }

  /** Of one row the survivor is the row itself, unless its key is automatically
      disabled ... */
  lemma SurvivorOfOne(one: seq<Row>)
    requires |one| == 1
    ensures Where(one, Survives) == if one[0].status != 3 then one else []
  {
    assert one[..0] == [];
  }

  /** ... and of a list they are those of its parts, in order. */
  lemma {:induction false} SurvivorsOfParts(first: seq<Row>, second: seq<Row>)
    ensures Where(first + second, Survives) == Where(first, Survives) + Where(second, Survives)
  {
    if second == [] {
      assert first + second == first;
    } else {
      var n := |second| - 1;
      SurvivorsOfParts(first, second[..n]);
      assert (first + second)[..|first + second| - 1] == first + second[..n];
    }
  }

  /** How many of the first n keys are not automatically disabled. */
  function SurvivorCount(info: Info, n: nat): nat {
    if n == 0 then 0
    else SurvivorCount(info, n - 1) + if StatusAt(info, n - 1) == AUTO_DISABLED then 0 else 1
  }

  /** What is kept of the entries of the first n keys when those go. */
  function KeptInfo(info: Info, n: nat): Info {
    if n == 0 then NO_INFO
    else if StatusAt(info, n - 1) == AUTO_DISABLED then KeptInfo(info, n - 1)
    else CarryOverDisabled(info, n - 1, KeptInfo(info, n - 1), SurvivorCount(info, n - 1))
  }

  lemma {:induction false} NothingTimedKept(info: Info, n: nat)
    requires NothingTimed(info)
    ensures NothingTimed(KeptInfo(info, n))
  {
    if n > 0 {
      NothingTimedKept(info, n - 1);
    }
  }

  /** What the loop of delete_disabled_keys has built after i keys. */
  ghost predicate SurvivedSoFar(keys: Keys, info: Info, i: nat, remaining: Keys, newInfo: Info) {
    && i <= |keys| && |remaining| == SurvivorCount(info, i) && InRange(newInfo, |remaining|)
    && Rows(remaining, newInfo) == Where(Rows(keys, info)[..i], Survives)
    && newInfo == KeptInfo(info, i)
  }

  lemma SurvivorNext(keys: Keys, info: Info, i: nat, remaining: Keys, newInfo: Info)
    requires SurvivedSoFar(keys, info, i, remaining, newInfo) && i < |keys| && StatusAt(info, i) != AUTO_DISABLED
    ensures SurvivedSoFar(keys, info, i + 1, remaining + [keys[i]],
                          CarryOverDisabled(info, i, newInfo, |remaining|))
  {
    WhereNext(Rows(keys, info), i, Survives);
    CarryOverShows(keys, info, i, remaining, newInfo);
  }

  lemma DroppedNext(keys: Keys, info: Info, i: nat, remaining: Keys, newInfo: Info)
    requires SurvivedSoFar(keys, info, i, remaining, newInfo) && i < |keys| && StatusAt(info, i) == AUTO_DISABLED
    ensures SurvivedSoFar(keys, info, i + 1, remaining, newInfo)
  {
    WhereNext(Rows(keys, info), i, Survives);
  }

  /** The loop of delete_disabled_keys: only automatically disabled keys go. */
  method WithoutAutoDisabled(keys: Keys, info: Info) returns (remaining: Keys, newInfo: Info, deleted: nat)
    ensures deleted + |remaining| == |keys| && |remaining| == SurvivorCount(info, |keys|)
    ensures InRange(newInfo, |remaining|)
    ensures Rows(remaining, newInfo) == Where(Rows(keys, info), Survives)
    ensures newInfo == KeptInfo(info, |keys|)
  {
    remaining, newInfo, deleted := [], NO_INFO, 0;
    var newIndex := 0;
    var i := 0;
    while i < |keys|
      invariant 0 <= i <= |keys| && newIndex == |remaining| && deleted + |remaining| == i
      invariant SurvivedSoFar(keys, info, i, remaining, newInfo)
    {
      if StatusAt(info, i) == AUTO_DISABLED {
        DroppedNext(keys, info, i, remaining, newInfo);
        deleted := deleted + 1;
      } else {
        SurvivorNext(keys, info, i, remaining, newInfo);
        newInfo := CarryOverDisabled(info, i, newInfo, newIndex);
        remaining := remaining + [keys[i]];
        newIndex := newIndex + 1;
      }
      i := i + 1;
    }
    assert Rows(keys, info)[..i] == Rows(keys, info);
  }

  /** Entries beyond the list are dropped from the status map when a channel is saved. */
  function Trimmed(info: Info, n: int): Info {
    info.(status := map i | i in info.status && i < n :: info.status[i])
  }

  lemma TrimmedNothing(info: Info, n: int)
    requires InRange(info, n)
    ensures Trimmed(info, n) == info
  {
  }

  predicate Fits<V>(m: map<int, V>, n: int) {
    forall j :: j in m ==> j < n
  }

  /** Times and reasons are not trimmed: they are in range only if they happen to fit. */
  lemma TrimmedInRangeIff(info: Info, n: int, m: int)
    requires InRange(info, n)
    ensures InRange(Trimmed(info, m), m) <==> Fits(info.time, m) && Fits(info.reason, m)
  {
    assert forall i :: i in Trimmed(info, m).status ==> i in info.status && i < m;
  }

  lemma NothingInRange(info: Info)
    requires InRange(info, 0)
    ensures info == NO_INFO
  {
    assert forall i :: i !in info.status && i !in info.time && i !in info.reason;
    assert info.status == map[];
    assert info.time == map[];
    assert info.reason == map[];
  }

  predicate EndsNonEmpty(keys: Keys) {
    keys != [] && keys[0] != "" && keys[|keys| - 1] != ""
  }

  /** Keys read from a column contain no line break. */
  lemma KeysAreFree(column: string)
    ensures AllFree(KeysIn(column), '\n')
  {
  }

  lemma WithoutKeepsFree(keys: Keys, k: nat)
    requires k < |keys| && AllFree(keys, '\n')
    ensures AllFree(keys[..k] + keys[k + 1..], '\n')
  {
  }

  lemma {:induction false} WhereKeepsFree(rs: seq<Row>, p: (int, Row) -> bool)
    requires forall i :: 0 <= i < |rs| ==> Free(rs[i].key, '\n')
    ensures forall i :: 0 <= i < |Where(rs, p)| ==> Free(Where(rs, p)[i].key, '\n')
  {
    if rs != [] {
      WhereKeepsFree(rs[..|rs| - 1], p);
    }
  }

  /** Keys are read back from the column exactly when neither outer one is empty. */
  lemma StoredKeys(keys: Keys, column: string, info: Info)
    requires AllFree(keys, '\n') && column == Join(keys, '\n') && InRange(info, |keys|)
    ensures KeysIn(column) == keys <==> keys == [] || EndsNonEmpty(keys)
    ensures EndsNonEmpty(keys) ==> column != "" && Trimmed(info, |KeysIn(column)|) == info
  {
    PiecesJoin(keys, '\n');
    if EndsNonEmpty(keys) {
      JoinEnds(keys, '\n');
      TrimmedNothing(info, |keys|);
    }
  }

  /** The key column after a save: an empty one is not written. */
  function ColumnAfter(column: string, keys: Keys): string {
    if Join(keys, '\n') != "" then Join(keys, '\n') else column
  }

  /** Whether moved times and reasons fit the keys that will be read back. */
  predicate FitAfter(info: Info, column: string, keys: Keys) {
    var n := |KeysIn(ColumnAfter(column, keys))|;
    Fits(info.time, n) && Fits(info.reason, n)
  }

  function WithoutIndex(keys: Keys, k: nat): Keys
    requires k < |keys|
  {
    keys[..k] + keys[k + 1..]
  }

  function MovedInfo(info: Info, k: int, n: nat): Info {
    Info(map[], Moved(info.time, k, n), Moved(info.reason, k, n))
  }

  /** Whether deleting the key at a position leaves all positions in range. */
  predicate DeletionFits(column: string, info: Info, k: int) {
    var keys := KeysIn(column);
    0 <= k < |keys| && |keys| > 1 ==>
      FitAfter(MovedInfo(info, k, |keys| - 1), column, WithoutIndex(keys, k))
  }

  /** The same for deleting the automatically disabled keys. */
  predicate CleanupFits(column: string, info: Info) {
    var keys := KeysIn(column);
    SurvivorCount(info, |keys|) < |keys| ==>
      FitAfter(KeptInfo(info, |keys|), column, KeysOf(Where(Rows(keys, info), Survives)))
  }

  function KeysOf(rs: seq<Row>): (keys: Keys)
    ensures |keys| == |rs| && forall i :: 0 <= i < |rs| ==> keys[i] == rs[i].key
  {
    seq(|rs|, i requires 0 <= i < |rs| => rs[i].key)
  }

  datatype Reply = Done | OutOfRange | NothingToDo | LastKey

  class Channel {
    var column: string
    var size: int
    var info: Info

    constructor (column: string, size: int, info: Info)
      requires size == |KeysIn(column)| && InRange(info, size)
      ensures Valid() && this.column == column && this.size == size && this.info == info
    {
      this.column, this.size, this.info := column, size, info;
    }

    predicate Valid()
      reads this
    {
      size == |KeysIn(column)| && InRange(info, size)
    }

    function Shown(): seq<Row>
      reads this
    {
      Rows(KeysIn(column), info)
    }

    /** Channel.Update: count the keys again, drop status entries beyond them, and
        write the row. An empty key column is not written: the stored one stays. */
    method Save(newColumn: string, newInfo: Info)
      requires Valid()
      requires forall i :: i in newInfo.status ==> 0 <= i
      modifies this
      ensures column == if newColumn != "" then newColumn else old(column)
      ensures size == |KeysIn(column)|
      ensures info == Trimmed(newInfo, size)
    {
      if newColumn != "" {
        column := newColumn;
      }
      size := |KeysIn(column)|;
      info := Trimmed(newInfo, size);
    }

    method DisableKey(index: int) returns (reply: Reply)
      requires Valid()
      modifies this
      ensures Valid() && column == old(column)
      ensures reply == if 0 <= index < old(size) then Done else OutOfRange
      ensures reply == OutOfRange ==> info == old(info)
      ensures reply == Done ==> info == old(info).(status := old(info).status[index := MANUALLY_DISABLED])
    {
      if index < 0 || index >= size {
        return OutOfRange;
      }
      var more := info.(status := info.status[index := MANUALLY_DISABLED]);
      TrimmedNothing(more, size);
      Save(column, more);
      reply := Done;
    }

    /** Enabling a key forgets everything about it. */
    method EnableKey(index: int) returns (reply: Reply)
      requires Valid()
      modifies this
      ensures Valid() && column == old(column)
      ensures reply == if 0 <= index < old(size) then Done else OutOfRange
      ensures reply == OutOfRange ==> info == old(info)
      ensures reply == Done ==>
        info == Info(old(info).status - {index}, old(info).time - {index}, old(info).reason - {index})
    {
      if index < 0 || index >= size {
        return OutOfRange;
      }
      var less := Info(info.status - {index}, info.time - {index}, info.reason - {index});
      TrimmedNothing(less, size);
      Save(column, less);
      reply := Done;
    }

    method EnableAll()
      requires Valid()
      modifies this
      ensures Valid() && column == old(column) && info == NO_INFO
    {
      TrimmedNothing(NO_INFO, size);
      Save(column, NO_INFO);
    }

    /** Every enabled key becomes manually disabled, the others keep their status. */
    method DisableAll() returns (reply: Reply)
      requires Valid()
      modifies this
      ensures Valid() && column == old(column)
      ensures reply == NothingToDo ==> info == old(info)
      ensures info.time == old(info).time && info.reason == old(info).reason
      ensures reply == Done ==> forall i :: 0 <= i < size ==>
        StatusAt(info, i) == if StatusAt(old(info), i) == ENABLED then MANUALLY_DISABLED else StatusAt(old(info), i)
      ensures reply == if exists i :: 0 <= i < size && StatusAt(old(info), i) == ENABLED then Done else NothingToDo
    {
      var status, disabledCount := DisableEach(info, size);
      if disabledCount == 0 {
        return NothingToDo;
      }
      TrimmedNothing(info.(status := status), size);
      Save(column, info.(status := status));
      reply := Done;
    }

    /** Deleting a key: unless it is the only one, the survivors keep what is shown
        of them and their order. They are what is read back from the column exactly
        when neither of the outer ones is an empty string. Whatever is read back, the
        positions are in range exactly when the moved times and reasons fit it. */
    method DeleteKey(index: int) returns (reply: Reply, remaining: Keys)
      requires Valid()
      modifies this
      ensures size == |KeysIn(column)|
      ensures reply == if !(0 <= index < old(size)) then OutOfRange else if old(size) == 1 then LastKey else Done
      ensures reply != Done ==> Valid() && column == old(column) && info == old(info)
      ensures reply == Done ==>
        && remaining == KeysIn(old(column))[..index] + KeysIn(old(column))[index + 1..]
        && (KeysIn(column) == remaining <==> EndsNonEmpty(remaining))
        && column == ColumnAfter(old(column), remaining)
        && MovedUpTo(info, old(info), index, |remaining|)
        && (EndsNonEmpty(remaining) ==> Valid() && Shown() == old(Shown())[..index] + old(Shown())[index + 1..])
      ensures Valid() <==> DeletionFits(old(column), old(info), index)
    {
      remaining := [];
      if index < 0 || index >= size {
        return OutOfRange, remaining;
      }
      var newInfo;
      remaining, newInfo := WithoutKey(KeysIn(column), info, index);
      if |remaining| == 0 {
        return LastKey, remaining;
      }
      reply := Done;
      var newColumn := Join(remaining, '\n');
      KeysAreFree(column);
      WithoutKeepsFree(KeysIn(column), index);
      StoredKeys(remaining, newColumn, newInfo);
      Save(newColumn, newInfo);
      TrimmedInRangeIff(newInfo, |remaining|, size);
    }

    /** Deleting the automatically disabled keys does so, with everything shown of the
        others kept, as long as one key is not automatically disabled. If all are,
        none is deleted and all of them are enabled again. */
    method DeleteDisabledKeys() returns (reply: Reply, deleted: nat, remaining: Keys)
      requires Valid()
      modifies this
      ensures size == |KeysIn(column)|
      ensures deleted + |remaining| == old(size)
      ensures remaining == KeysOf(Where(old(Shown()), Survives))
      ensures reply == Done ==> (KeysIn(column) == remaining <==> EndsNonEmpty(remaining))
      ensures reply == if deleted == 0 then NothingToDo else Done
      ensures reply == NothingToDo ==> Valid() && column == old(column) && info == old(info)
      ensures reply == Done && EndsNonEmpty(remaining) ==> Valid() && Shown() == Where(old(Shown()), Survives)
      ensures reply == Done && remaining == [] ==> Valid() && column == old(column) && info == NO_INFO
      ensures reply == Done ==>
        && column == ColumnAfter(old(column), remaining)
        && info == Trimmed(KeptInfo(old(info), old(size)), size)
      ensures Valid() <==> CleanupFits(old(column), old(info))
    {
      var newInfo;
      remaining, newInfo, deleted := WithoutAutoDisabled(KeysIn(column), info);
      assert forall i :: 0 <= i < |remaining| ==> Rows(remaining, newInfo)[i].key == remaining[i];
      assert remaining == KeysOf(Where(Rows(KeysIn(column), info), Survives));
      if deleted == 0 {
        return NothingToDo, deleted, remaining;
      }
      reply := Done;
      SurvivorsAreFree(column, info, remaining, newInfo);
      StoredKeys(remaining, Join(remaining, '\n'), newInfo);
      if remaining == [] {
        NothingInRange(newInfo);
        TrimmedNothing(newInfo, size);
      }
      Save(Join(remaining, '\n'), newInfo);
      TrimmedInRangeIff(newInfo, |remaining|, size);
    }

    /** The key "append" branch: new keys go to the end, existing ones keep their
        position and with it everything shown of them. A column of nothing but line
        breaks reads as one empty key: it gives way to the first new key, which takes
        over its row. */
    method AppendKeys(input: string)
      requires Valid() && column != ""
      modifies this
      ensures TrimChar(old(column), '\n') != "" ==>
        && Valid()
        && KeysIn(column) == old(KeysIn(column)) + NewKeys(old(KeysIn(column)), Split(input, '\n'))
        && Shown()[..old(size)] == old(Shown())
        && (forall i :: old(size) <= i < size ==> Shown()[i].status == ENABLED)
        && info == old(info)
      ensures TrimChar(old(column), '\n') == "" ==>
        && Valid() && info == old(info)
        && KeysIn(column) == BlankReplaced(NewKeys(old(KeysIn(column)), Split(input, '\n')))
    {
      var inputs := Split(input, '\n');
      var added := DedupKeys(KeysIn(column), inputs);
      var newColumn := Join(KeysIn(column) + added, '\n');
      if TrimChar(column, '\n') != "" {
        AppendedShows(column, inputs, added, newColumn, info);
      } else {
        AppendedToBlank(column, inputs, added, newColumn, info);
      }
      Save(newColumn, info);
    }
  }

  /** The loop of disable_all_keys. */
  method DisableEach(info: Info, size: int) returns (status: map<int, int>, disabledCount: nat)
    requires InRange(info, size) && 0 <= size
    ensures forall j :: j in status <==> 0 <= j < size
    ensures forall j :: 0 <= j < size ==>
              status[j] == if StatusAt(info, j) == ENABLED then MANUALLY_DISABLED else StatusAt(info, j)
    ensures disabledCount == 0 <==> forall i :: 0 <= i < size ==> StatusAt(info, i) != ENABLED
  {
    status, disabledCount := info.status, 0;
    var i := 0;
    while i < size
      invariant 0 <= i <= size
      invariant forall j :: 0 <= j < i ==>
                  j in status
                  && status[j] == if StatusAt(info, j) == ENABLED then MANUALLY_DISABLED else StatusAt(info, j)
      invariant forall j :: j >= i || j < 0 ==> (j in status <==> j in info.status)
      invariant forall j :: j >= i && j in status ==> status[j] == info.status[j]
      invariant disabledCount == 0 <==> forall j :: 0 <= j < i ==> StatusAt(info, j) != ENABLED
    {
      var s := ENABLED;
      if i in status {
        s := status[i];
      }
      assert s == StatusAt(info, i);
      if s == ENABLED {
        status := status[i := MANUALLY_DISABLED];
        disabledCount := disabledCount + 1;
      }
      i := i + 1;
    }
  }

  lemma SurvivorsAreFree(column: string, info: Info, remaining: Keys, newInfo: Info)
    requires Rows(remaining, newInfo) == Where(Rows(KeysIn(column), info), Survives)
    ensures AllFree(remaining, '\n')
  {
    KeysAreFree(column);
    WhereKeepsFree(Rows(KeysIn(column), info), Survives);
    forall i | 0 <= i < |remaining|
      ensures Free(remaining[i], '\n')
    {
      assert Rows(remaining, newInfo)[i].key == remaining[i];
    }
  }

  // ----- appending keys -----

  predicate Known(keys: Keys, key: string) {
    key in Trims(keys)
  }

  /** The trimmed, non-empty inputs that are neither present nor repeated, in order. */
  function NewKeys(existing: Keys, input: Keys): Keys {
    if input == [] then []
    else
      var n := |input| - 1;
      var before := NewKeys(existing, input[..n]);
      var key := TrimSpace(input[n]);
      if key == "" || Known(existing, key) || key in before then before else before + [key]
  }

  method SeenKeys(existing: Keys) returns (seen: set<string>)
    ensures forall k :: k in seen <==> k != "" && Known(existing, k)
  {
    ghost var trimmed := Trims(existing);
    seen := {};
    var i := 0;
    while i < |existing|
      invariant 0 <= i <= |existing|
      invariant forall k :: k in seen <==> k != "" && k in trimmed[..i]
    {
      var normalized := TrimSpace(existing[i]);
      assert normalized == trimmed[i];
      assert trimmed[..i + 1] == trimmed[..i] + [trimmed[i]];
      if normalized != "" {
        seen := seen + {normalized};
      }
      i := i + 1;
    }
    assert trimmed[..i] == trimmed;
  }

  /** The set of the dedup loop: what exists and what was added so far. */
  ghost predicate SeenIs(existing: Keys, added: Keys, seen: set<string>) {
    forall k :: k in seen <==> k != "" && (Known(existing, k) || k in added)
  }

  lemma SeenNext(existing: Keys, added: Keys, seen: set<string>, key: string)
    requires SeenIs(existing, added, seen) && key != ""
    ensures SeenIs(existing, added + [key], seen + {key})
  {
  }

  method DedupKeys(existing: Keys, input: Keys) returns (added: Keys)
    ensures added == NewKeys(existing, input)
  {
    var seen := SeenKeys(existing);
    added := [];
    var i := 0;
    while i < |input|
      invariant 0 <= i <= |input|
      invariant added == NewKeys(existing, input[..i])
      invariant SeenIs(existing, added, seen)
    {
      var normalized := TrimSpace(input[i]);
      NewKeysNext(existing, input, i);
      if normalized != "" && normalized !in seen {
        SeenNext(existing, added, seen, normalized);
        seen := seen + {normalized};
        added := added + [normalized];
      }
      i := i + 1;
    }
    assert input[..i] == input;
  }

  lemma NewKeysNext(existing: Keys, input: Keys, i: nat)
    requires i < |input|
    ensures var before := NewKeys(existing, input[..i]);
            var key := TrimSpace(input[i]);
            NewKeys(existing, input[..i + 1]) ==
            if key == "" || Known(existing, key) || key in before then before else before + [key]
  {
    assert input[..i + 1][..i] == input[..i];
  }

  lemma AppendedShows(column: string, input: Keys, added: Keys, newColumn: string, info: Info)
    requires TrimChar(column, '\n') != "" && AllFree(input, '\n') && added == NewKeys(KeysIn(column), input)
    requires newColumn == Join(KeysIn(column) + added, '\n') && InRange(info, |KeysIn(column)|)
    ensures newColumn != "" && KeysIn(newColumn) == KeysIn(column) + added
    ensures Trimmed(info, |KeysIn(newColumn)|) == info && InRange(info, |KeysIn(newColumn)|)
    ensures Rows(KeysIn(newColumn), info)[..|KeysIn(column)|] == Rows(KeysIn(column), info)
    ensures forall i :: |KeysIn(column)| <= i < |KeysIn(newColumn)| ==>
              Rows(KeysIn(newColumn), info)[i].status == ENABLED
  {
    ColumnEnds(column);
    AppendedReadBack(column, added, input);
    AppendedRows(KeysIn(column), added, info);
    TrimmedNothing(info, |KeysIn(newColumn)|);
  }

  function BlankReplaced(added: Keys): Keys {
    if added == [] then [""] else added
  }

  lemma BlankColumn(column: string)
    requires column != "" && TrimChar(column, '\n') == ""
    ensures KeysIn(column) == [""]
  {
    var t := TrimChar(column, '\n');
    assert IndexOf(t, '\n') == |t|;
    assert Split(t, '\n') == [t];
  }

  lemma AppendedToBlank(column: string, input: Keys, added: Keys, newColumn: string, info: Info)
    requires column != "" && TrimChar(column, '\n') == "" && AllFree(input, '\n')
    requires added == NewKeys(KeysIn(column), input) && newColumn == Join(KeysIn(column) + added, '\n')
    requires InRange(info, |KeysIn(column)|)
    ensures KeysIn(column) == [""]
    ensures newColumn == "" <==> added == []
    ensures added != [] ==> KeysIn(newColumn) == added
    ensures Trimmed(info, |BlankReplaced(added)|) == info && InRange(info, |BlankReplaced(added)|)
  {
    BlankColumn(column);
    TrimmedNothing(info, |BlankReplaced(added)|);
    if added == [] {
      assert KeysIn(column) + added == KeysIn(column);
    } else {
      NewKeysAreGood(KeysIn(column), input);
      BlankThenKeys(added, KeysIn(column), newColumn);
    }
  }

  lemma BlankThenKeys(added: Keys, blank: Keys, column: string)
    requires blank == [""] && added != [] && AllFree(added, '\n') && EndsNonEmpty(added)
    requires column == Join(blank + added, '\n')
    ensures column != "" && KeysIn(column) == added
  {
    var t := Join(added, '\n');
    assert (blank + added)[1..] == added;
    assert column == ['\n'] + t;
    JoinEnds(added, '\n');
    TrimLeading(t, '\n');
    SplitJoin(added, '\n');
  }

  lemma ColumnEnds(column: string)
    requires TrimChar(column, '\n') != ""
    ensures EndsNonEmpty(KeysIn(column))
  {
    SplitEnds(TrimChar(column, '\n'), '\n');
  }

  lemma AppendedReadBack(column: string, added: Keys, input: Keys)
    requires EndsNonEmpty(KeysIn(column)) && AllFree(input, '\n') && added == NewKeys(KeysIn(column), input)
    ensures Join(KeysIn(column) + added, '\n') != ""
    ensures KeysIn(Join(KeysIn(column) + added, '\n')) == KeysIn(column) + added
  {
    var all := KeysIn(column) + added;
    KeysAreFree(column);
    NewKeysAreGood(KeysIn(column), input);
    PiecesJoin(all, '\n');
    JoinEnds(all, '\n');
  }

  /** Appended keys are new, all different, and can be stored. */
  ghost predicate GoodKeys(existing: Keys, added: Keys) {
    && (forall i :: 0 <= i < |added| ==> Free(added[i], '\n') && added[i] != "" && !Known(existing, added[i]))
    && (forall i, j :: 0 <= i < j < |added| ==> added[i] != added[j])
  }

  lemma GoodNext(existing: Keys, added: Keys, key: string)
    requires GoodKeys(existing, added)
    requires Free(key, '\n') && key != "" && !Known(existing, key) && key !in added
    ensures GoodKeys(existing, added + [key])
  {
  }

  lemma {:induction false} NewKeysAreGood(existing: Keys, input: Keys)
    requires AllFree(input, '\n')
    ensures GoodKeys(existing, NewKeys(existing, input))
  {
    if input != [] {
      var n := |input| - 1;
      NewKeysAreGood(existing, input[..n]);
      TrimKeepsFree(input[n], '\n');
      var before, key := NewKeys(existing, input[..n]), TrimSpace(input[n]);
      if !(key == "" || Known(existing, key) || key in before) {
        GoodNext(existing, before, key);
      }
    }
  }

  /** Every trimmed input that is not empty and not known, once, in the order in which
      the inputs first occur. */
  ghost predicate AllNew(existing: Keys, trimmed: Keys, added: Keys) {
    && (forall x :: x in added <==> x != "" && x in trimmed && !Known(existing, x))
    && InFirstOrder(added, trimmed)
  }

  lemma AllNewStays(existing: Keys, trimmed: Keys, added: Keys, key: string)
    requires AllNew(existing, trimmed, added) && (key == "" || Known(existing, key) || key in added)
    ensures AllNew(existing, trimmed + [key], added)
  {
    FirstOrderStays(added, trimmed, key);
  }

  lemma AllNewGrows(existing: Keys, trimmed: Keys, added: Keys, key: string)
    requires AllNew(existing, trimmed, added) && key != "" && !Known(existing, key) && key !in added
    ensures AllNew(existing, trimmed + [key], added + [key])
  {
    FirstOrderGrows(added, trimmed, key);
  }

  lemma NewKeysLast(existing: Keys, rest: Keys, last: string)
    ensures var before, key := NewKeys(existing, rest), TrimSpace(last);
            NewKeys(existing, rest + [last]) ==
            if key == "" || Known(existing, key) || key in before then before else before + [key]
  {
    assert (rest + [last])[..|rest|] == rest;
  }

  lemma AllNewNext(existing: Keys, rest: Keys, last: string)
    requires AllNew(existing, Trims(rest), NewKeys(existing, rest))
    ensures AllNew(existing, Trims(rest + [last]), NewKeys(existing, rest + [last]))
  {
    var before, key := NewKeys(existing, rest), TrimSpace(last);
    NewKeysLast(existing, rest, last);
    TrimsLast(rest, last);
    if key == "" || Known(existing, key) || key in before {
      AllNewStays(existing, Trims(rest), before, key);
    } else {
      AllNewGrows(existing, Trims(rest), before, key);
    }
  }

  /** That is what is appended. */
  lemma {:induction false} NewKeysAreComplete(existing: Keys, input: Keys)
    ensures AllNew(existing, Trims(input), NewKeys(existing, input))
  {
    if input != [] {
      var rest, last := input[..|input| - 1], input[|input| - 1];
      NewKeysAreComplete(existing, rest);
      AllNewNext(existing, rest, last);
      assert input == rest + [last];
    }
  }

  /** Keys appended at the end leave the rows before them alone and show up enabled. */
  lemma AppendedRows(existing: Keys, added: Keys, info: Info)
    requires InRange(info, |existing|)
    ensures Rows(existing + added, info)[..|existing|] == Rows(existing, info)
    ensures forall i :: |existing| <= i < |existing + added| ==> Rows(existing + added, info)[i].status == ENABLED
  {
  }

  // ----- sequences of actions -----

  predicate NoneEmpty(keys: Keys) {
    forall i :: 0 <= i < |keys| ==> keys[i] != ""
  }

  lemma {:induction false} WhereKeepsNonEmpty(rs: seq<Row>, p: (int, Row) -> bool)
    requires forall i :: 0 <= i < |rs| ==> rs[i].key != ""
    ensures forall i :: 0 <= i < |Where(rs, p)| ==> Where(rs, p)[i].key != ""
  {
    if rs != [] {
      WhereKeepsNonEmpty(rs[..|rs| - 1], p);
    }
  }

  lemma ColumnWithKeys(column: string)
    requires NoneEmpty(KeysIn(column)) && column != ""
    ensures TrimChar(column, '\n') != ""
  {
    var t := TrimChar(column, '\n');
    assert KeysIn(column) == Split(t, '\n');
    assert t == "" ==> IndexOf(t, '\n') == |t| && Split(t, '\n') == [t];
  }

  lemma AppendKeepsNonEmpty(existing: Keys, input: Keys)
    requires NoneEmpty(existing) && AllFree(input, '\n')
    ensures NoneEmpty(existing + NewKeys(existing, input))
  {
    NewKeysAreGood(existing, input);
  }

  datatype Act =
    | Disable(i: int)
    | Enable(i: int)
    | Disables
    | Enables
    | Delete(i: int)
    | DeleteDisabled
    | Append(input: string)

  /** A channel with at least one key, and with no empty key or no recorded time and
      reason. */
  predicate Proper(c: Channel)
    reads c
  {
    c.Valid() && c.column != "" && (NoneEmpty(KeysIn(c.column)) || NothingTimed(c.info))
  }

  lemma NonEmptyWithout(keys: Keys, k: nat, remaining: Keys)
    requires NoneEmpty(keys) && k < |keys| && |keys| != 1 && remaining == keys[..k] + keys[k + 1..]
    ensures NoneEmpty(remaining) && EndsNonEmpty(remaining)
  {
  }

  lemma DeletionFitsProper(column: string, info: Info, k: int)
    requires InRange(info, |KeysIn(column)|) && column != ""
    requires NoneEmpty(KeysIn(column)) || NothingTimed(info)
    ensures DeletionFits(column, info, k)
  {
    var keys := KeysIn(column);
    if 0 <= k < |keys| && |keys| > 1 {
      var remaining := WithoutIndex(keys, k);
      if NothingTimed(info) {
        assert Moved(info.time, k, |keys| - 1) == map[] && Moved(info.reason, k, |keys| - 1) == map[];
      } else {
        NonEmptyWithout(keys, k, remaining);
        KeysAreFree(column);
        WithoutKeepsFree(keys, k);
        StoredKeys(remaining, Join(remaining, '\n'), NO_INFO);
      }
    }
  }

  method DeleteOfKeys(c: Channel, i: int)
    requires c.Valid() && c.column != "" && NoneEmpty(KeysIn(c.column))
    modifies c
    ensures Proper(c)
  {
    ghost var keys := KeysIn(c.column);
    var reply, remaining := c.DeleteKey(i);
    if reply == Done {
      NonEmptyWithout(keys, i, remaining);
    }
  }

  method DeleteUntimed(c: Channel, i: int)
    requires c.Valid() && c.column != "" && NothingTimed(c.info)
    modifies c
    ensures Proper(c)
  {
    DeletionFitsProper(c.column, c.info, i);
    var reply, remaining := c.DeleteKey(i);
  }

  method DeleteProperly(c: Channel, i: int)
    requires c.Valid() && c.column != ""
    modifies c
    ensures c.column != "" && c.size == |KeysIn(c.column)|
    ensures c.Valid() <==> DeletionFits(old(c.column), old(c.info), i)
    ensures old(Proper(c)) ==> Proper(c)
  {
    if Proper(c) {
      DeletionFitsProper(c.column, c.info, i);
      if NothingTimed(c.info) {
        DeleteUntimed(c, i);
      } else {
        DeleteOfKeys(c, i);
      }
    } else {
      var _, _ := c.DeleteKey(i);
    }
  }

  lemma UntimedCleanupFits(column: string, info: Info)
    requires NothingTimed(info)
    ensures CleanupFits(column, info)
  {
    NothingTimedKept(info, |KeysIn(column)|);
  }

  lemma SurvivorsNonEmpty(column: string, info: Info, remaining: Keys)
    requires NoneEmpty(KeysIn(column)) && remaining == KeysOf(Where(Rows(KeysIn(column), info), Survives))
    ensures NoneEmpty(remaining) && (remaining == [] || EndsNonEmpty(remaining))
  {
    WhereKeepsNonEmpty(Rows(KeysIn(column), info), Survives);
  }

  method CleanUpKeys(c: Channel)
    requires c.Valid() && c.column != "" && NoneEmpty(KeysIn(c.column))
    modifies c
    ensures Proper(c) && CleanupFits(old(c.column), old(c.info))
  {
    ghost var column, info := c.column, c.info;
    var reply, deleted, remaining := c.DeleteDisabledKeys();
    SurvivorsNonEmpty(column, info, remaining);
  }

  method CleanUpUntimed(c: Channel)
    requires c.Valid() && c.column != "" && NothingTimed(c.info)
    modifies c
    ensures Proper(c) && CleanupFits(old(c.column), old(c.info))
  {
    UntimedCleanupFits(c.column, c.info);
    NothingTimedKept(c.info, c.size);
    var reply, deleted, remaining := c.DeleteDisabledKeys();
  }

  method DeleteDisabledProperly(c: Channel)
    requires c.Valid() && c.column != ""
    modifies c
    ensures c.column != "" && c.size == |KeysIn(c.column)|
    ensures c.Valid() <==> CleanupFits(old(c.column), old(c.info))
    ensures old(Proper(c)) ==> Proper(c)
  {
    if NothingTimed(c.info) {
      CleanUpUntimed(c);
    } else if Proper(c) {
      CleanUpKeys(c);
    } else {
      var _, _, _ := c.DeleteDisabledKeys();
    }
  }

  method AppendProperly(c: Channel, input: string)
    requires c.Valid() && c.column != ""
    modifies c
    ensures c.Valid() && c.column != ""
    ensures old(Proper(c)) ==> Proper(c)
  {
    ghost var timed := !NothingTimed(c.info);
    if timed && NoneEmpty(KeysIn(c.column)) {
      ColumnWithKeys(c.column);
      AppendKeepsNonEmpty(KeysIn(c.column), Split(input, '\n'));
    }
    c.AppendKeys(input);
  }

  /** Whether an action leaves all positions in range. */
  predicate ActFits(column: string, info: Info, act: Act) {
    match act
    case Delete(i) => DeletionFits(column, info, i)
    case DeleteDisabled => CleanupFits(column, info)
    case _ => true
  }

  /** Every action keeps the recorded size equal to the number of keys and never leaves
      a channel without a key. It keeps all positions in range exactly when what it
      moves fits, which is so in every sequence of actions on a proper channel. */
  method Perform(c: Channel, act: Act)
    requires c.Valid() && c.column != ""
    modifies c
    ensures c.column != "" && c.size == |KeysIn(c.column)|
    ensures c.Valid() <==> ActFits(old(c.column), old(c.info), act)
    ensures old(Proper(c)) ==> Proper(c)
  {
    match act {
      case Disable(i) => var _ := c.DisableKey(i);
      case Enable(i) => var _ := c.EnableKey(i);
      case Disables => var _ := c.DisableAll();
      case Enables => c.EnableAll();
      case Delete(i) => DeleteProperly(c, i);
      case DeleteDisabled => DeleteDisabledProperly(c);
      case Append(input) => AppendProperly(c, input);
    }
  }

  /** With an empty key and a recorded time it is different: deleting the first of
      the keys a, "" and b loses the empty one as well, and the time of b is left at a
      position beyond the list. */
  method StrandedEntry(a: string, b: string, time: int) returns (c: Channel)
    requires a != "" && b != "" && Free(a, '\n') && Free(b, '\n')
    ensures fresh(c) && KeysIn(c.column) == [b] && 1 in c.info.time && !c.Valid()
  {
    var keys := Three(a, "", b);
    var column := Join(keys, '\n');
    ThreeStored(keys, column);
    var info := Info(map[], map[2 := time], map[]);
    c := new Channel(column, 3, info);
    var reply, remaining := c.DeleteKey(0);
    Stranded(keys, remaining, column, c.column, info, c.info, b);
  }

  lemma Stranded(keys: Keys, remaining: Keys, column: string, newColumn: string, info: Info, newInfo: Info, b: string)
    requires |keys| == 3 && keys[1] == "" && keys[2] == b && b != "" && Free(b, '\n') && 2 in info.time
    requires remaining == keys[..0] + keys[1..] && newColumn == ColumnAfter(column, remaining)
    requires MovedUpTo(newInfo, info, 0, |remaining|)
    ensures KeysIn(newColumn) == [b] && 1 in newInfo.time && !InRange(newInfo, |KeysIn(newColumn)|)
  {
    assert |remaining| == 2 && remaining[0] == "" && remaining[1] == b;
    LastOfTwo(remaining, b, Join(remaining, '\n'));
    assert Back(1, 0) == 2;
    assert 1 in Moved(info.time, 0, 2);
  }

  function Three(a: string, b: string, c: string): Keys {
    [a, b, c]
  }

  lemma ThreeStored(keys: Keys, column: string)
    requires |keys| == 3 && AllFree(keys, '\n') && EndsNonEmpty(keys) && column == Join(keys, '\n')
    ensures KeysIn(column) == keys
  {
    StoredKeys(keys, column, NO_INFO);
  }

  lemma LastOfTwo(keys: Keys, b: string, column: string)
    requires |keys| == 2 && keys[0] == "" && keys[1] == b && b != "" && Free(b, '\n')
    requires column == Join(keys, '\n')
    ensures column != "" && KeysIn(column) == [b]
  {
    var blank, last := keys[..1], keys[1..];
    assert keys == blank + last;
    assert blank == [""];
    assert |last| == 1 && last[0] == b;
    assert AllFree(last, '\n') && EndsNonEmpty(last);
    BlankThenKeys(last, blank, column);
    assert last == [b];
  }
}
