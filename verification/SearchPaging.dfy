// search_handler.go, after the query: grouping the rows by property and cutting a page.
module SearchPaging {
  import opened Prelude

  const INT64_LIMIT := 0x8000_0000_0000_0000

  // Two's-complement wrap-around of Go's int.
  function Wrap(n: int): int {
    var m := n % (2 * INT64_LIMIT);
    if m < INT64_LIMIT then m else m - 2 * INT64_LIMIT
  }

  datatype RoomType = RoomType(id: string, name: string, capacity: int, nightlyRateMinor: int, unitsAvailable: int)

  datatype QueryRow = QueryRow(propertyId: string, property: string, room: RoomType)

  datatype PropertyResult = PropertyResult(propertyId: string, property: string, rooms: seq<RoomType>)

  // The property ids in order of first appearance.
  function FirstIds(rows: seq<QueryRow>): seq<string> {
    if rows == [] then []
    else
      var ids, id := FirstIds(rows[..|rows| - 1]), rows[|rows| - 1].propertyId;
      if id in ids then ids else ids + [id]
  }

  // The room types of one property's rows, in row order.
  function RoomsOf(rows: seq<QueryRow>, id: string): seq<RoomType> {
    if rows == [] then []
    else RoomsOf(rows[..|rows| - 1], id) + if rows[|rows| - 1].propertyId == id then [rows[|rows| - 1].room] else []
  }

  // The property columns of its first row.
  function PropertyOf(rows: seq<QueryRow>, id: string): string {
    if rows == [] then ""
    else if id in FirstIds(rows[..|rows| - 1]) then PropertyOf(rows[..|rows| - 1], id)
    else rows[|rows| - 1].property
  }

  function Group(rows: seq<QueryRow>, id: string): PropertyResult {
    PropertyResult(id, PropertyOf(rows, id), RoomsOf(rows, id))
  }

  function Groups(rows: seq<QueryRow>, ids: seq<string>): (groups: seq<PropertyResult>)
    ensures |groups| == |ids|
    ensures forall i :: 0 <= i < |ids| ==> groups[i] == Group(rows, ids[i])
  {
    if ids == [] then [] else Groups(rows, ids[..|ids| - 1]) + [Group(rows, ids[|ids| - 1])]
  }

  function Grouped(rows: seq<QueryRow>): seq<PropertyResult> { Groups(rows, FirstIds(rows)) }

  function Slice<T>(list: seq<T>, offset: nat, size: nat): seq<T> {
    var start := Min(offset, |list|);
    list[start..Min(start + size, |list|)]
  }

  function Offset(page: int, pageSize: int): int { (page - 1) * pageSize }

  // The scan loop: the result map and the order of its keys.
  method GroupRows(rows: seq<QueryRow>) returns (propertyMap: map<string, PropertyResult>, orderedPropertyIDs: seq<string>)
    ensures orderedPropertyIDs == FirstIds(rows)
    ensures forall id :: id in orderedPropertyIDs ==> id in propertyMap && propertyMap[id] == Group(rows, id)
  {
    propertyMap, orderedPropertyIDs := map[], [];
    for i := 0 to |rows|
      invariant orderedPropertyIDs == FirstIds(rows[..i])
      invariant forall id :: id in propertyMap <==> id in orderedPropertyIDs
      invariant forall id :: id in propertyMap ==> propertyMap[id] == Group(rows[..i], id)
    {
      var row := rows[i];
      GroupStep(rows[..i], row);
      assert rows[..i + 1] == rows[..i] + [row];
      if row.propertyId in propertyMap {
        var prop := propertyMap[row.propertyId];
        propertyMap := propertyMap[row.propertyId := prop.(rooms := prop.rooms + [row.room])];
      } else {
        propertyMap := propertyMap[row.propertyId := PropertyResult(row.propertyId, row.property, [row.room])];
        orderedPropertyIDs := orderedPropertyIDs + [row.propertyId];
      }
    }
    assert rows[..|rows|] == rows;
  }

  // What one more row does to the groups.
  lemma GroupStep(rows: seq<QueryRow>, row: QueryRow)
    ensures FirstIds(rows + [row]) == FirstIds(rows) + if row.propertyId in FirstIds(rows) then [] else [row.propertyId]
    ensures forall id :: id in FirstIds(rows) && id != row.propertyId ==> Group(rows + [row], id) == Group(rows, id)
    ensures Group(rows + [row], row.propertyId) ==
            if row.propertyId in FirstIds(rows)
            then Group(rows, row.propertyId).(rooms := RoomsOf(rows, row.propertyId) + [row.room])
            else PropertyResult(row.propertyId, row.property, [row.room])
  {
    assert (rows + [row])[..|rows|] == rows;
    NewIdHasNoRooms(rows, row.propertyId);
  }

  // Page `page` of the groups: element i is element (page - 1) * pageSize + i of them, and there are as
  // many as remain, at most pageSize.
  ghost predicate IsPage<T>(groups: seq<T>, page: nat, pageSize: nat, results: seq<T>)
    requires page > 0
  {
    var skipped := (page - 1) * pageSize;
    && |results| == Max(0, Min(pageSize, |groups| - skipped))
    && forall i :: 0 <= i < |results| ==> 0 <= skipped + i < |groups| && results[i] == groups[skipped + i]
  }

  lemma SliceIsPage<T>(groups: seq<T>, page: nat, pageSize: nat)
    requires page > 0 && 0 <= (page - 1) * pageSize
    ensures IsPage(groups, page, pageSize, Slice(groups, (page - 1) * pageSize, pageSize))
  {
  }

  // None is the index panic of a negative start.
  method Search(rows: seq<QueryRow>, page: int, pageSize: int)
    returns (results: Option<seq<PropertyResult>>, totalResults: nat)
    requires 0 < page < INT64_LIMIT && 0 < pageSize <= 50
    ensures totalResults == |Grouped(rows)|
    ensures (page - 1) * pageSize < 0x8000_0000_0000_0000 ==>
              results.Some? && IsPage(Grouped(rows), page, pageSize, results.value)
    ensures results == PageAt(Grouped(rows), Wrap(Offset(page, pageSize)), pageSize)
  {
    var propertyMap, orderedPropertyIDs := GroupRows(rows);
    totalResults := |orderedPropertyIDs|;
    OffsetIsNatural(page, pageSize);
    if (page - 1) * pageSize < INT64_LIMIT {
      WrapIs((page - 1) * pageSize);
      SliceIsPage(Grouped(rows), page, pageSize);
    }
    results := Cut(rows, propertyMap, orderedPropertyIDs, Wrap((page - 1) * pageSize), pageSize);
  }

  lemma OffsetIsNatural(page: nat, pageSize: nat)
    requires page > 0
    ensures 0 <= (page - 1) * pageSize
  {
  }

  function PageAt<T>(list: seq<T>, start: int, size: nat): Option<seq<T>> {
    if start < 0 then None else Some(Slice(list, start, size))
  }

  method Cut(ghost rows: seq<QueryRow>, propertyMap: map<string, PropertyResult>, orderedPropertyIDs: seq<string>,
             offset: int, pageSize: nat)
    returns (results: Option<seq<PropertyResult>>)
    requires orderedPropertyIDs == FirstIds(rows) && 0 < pageSize
    requires forall id :: id in orderedPropertyIDs ==> id in propertyMap && propertyMap[id] == Group(rows, id)
    ensures results == PageAt(Grouped(rows), offset, pageSize)
  {
    var start := Min(offset, |orderedPropertyIDs|);
    var end := Min(start + pageSize, |orderedPropertyIDs|);
    if start < 0 {
      return None;
    }
    ghost var groups := Grouped(rows);
    var list: seq<PropertyResult> := [];
    for i := start to end
      invariant list == groups[start..i]
    {
      assert orderedPropertyIDs[i] in orderedPropertyIDs;
      assert groups[start..i + 1] == groups[start..i] + [groups[i]];
      list := list + [propertyMap[orderedPropertyIDs[i]]];
    }
    return Some(list);
  }

  lemma {:induction false} NewIdHasNoRooms(rows: seq<QueryRow>, id: string)
    ensures id !in FirstIds(rows) ==> RoomsOf(rows, id) == []
  {
    if rows != [] { NewIdHasNoRooms(rows[..|rows| - 1], id); }
  }

  // ---- grouping loses nothing ----

  function RoomCount(groups: seq<PropertyResult>): nat {
    if groups == [] then 0 else RoomCount(groups[..|groups| - 1]) + |groups[|groups| - 1].rooms|
  }

  // The index of the first row of a property, or |rows|.
  function FirstRow(rows: seq<QueryRow>, id: string): nat {
    if rows == [] then 0
    else
      var before := FirstRow(rows[..|rows| - 1], id);
      if before < |rows| - 1 || rows[|rows| - 1].propertyId == id then before else |rows|
  }

  lemma {:induction false} FirstRowIs(rows: seq<QueryRow>, id: string)
    ensures FirstRow(rows, id) <= |rows|
    ensures FirstRow(rows, id) < |rows| <==> id in FirstIds(rows)
    ensures FirstRow(rows, id) < |rows| ==> rows[FirstRow(rows, id)].propertyId == id
    ensures forall i :: 0 <= i < FirstRow(rows, id) ==> rows[i].propertyId != id
  {
    if rows != [] { FirstRowIs(rows[..|rows| - 1], id); }
  }

  // Properties appear once each, in the order of their first rows.
  lemma {:induction false} IdsInOrder(rows: seq<QueryRow>, i: nat, j: nat)
    requires i < j < |FirstIds(rows)|
    ensures FirstRow(rows, FirstIds(rows)[i]) < FirstRow(rows, FirstIds(rows)[j])
    ensures FirstIds(rows)[i] != FirstIds(rows)[j]
  {
    var n := |rows| - 1;
    var ids := FirstIds(rows[..n]);
    forall id ensures (id in ids ==> FirstRow(rows, id) == FirstRow(rows[..n], id) < n) { FirstRowIs(rows[..n], id); }
    if j < |ids| {
      IdsInOrder(rows[..n], i, j);
    } else {
      FirstRowIs(rows[..n], rows[n].propertyId);
      assert ids[i] in ids;
    }
  }

  lemma {:induction false} OneMoreRow(rows: seq<QueryRow>, ids: seq<string>)
    requires rows != [] && forall i, j :: 0 <= i < j < |ids| ==> ids[i] != ids[j]
    ensures var n := |rows| - 1;
            RoomCount(Groups(rows, ids)) ==
            RoomCount(Groups(rows[..n], ids)) + if rows[n].propertyId in ids then 1 else 0
    decreases |ids|
  {
    if ids != [] {
      var k := |ids| - 1;
      OneMoreRow(rows, ids[..k]);
      assert ids == ids[..k] + [ids[k]];
      assert ids[k] !in ids[..k];
      GroupsPrefix(rows, ids);
      GroupsPrefix(rows[..|rows| - 1], ids);
    }
  }

  lemma GroupsPrefix(rows: seq<QueryRow>, ids: seq<string>)
    requires ids != []
    ensures Groups(rows, ids)[..|ids| - 1] == Groups(rows, ids[..|ids| - 1])
  {
  }

  lemma {:induction false} RowsHaveGroups(rows: seq<QueryRow>, i: nat)
    requires i < |rows|
    ensures rows[i].propertyId in FirstIds(rows)
  {
    if i < |rows| - 1 { RowsHaveGroups(rows[..|rows| - 1], i); }
  }

  // A row's place in its property: how many earlier rows share the property.
  function Rank(rows: seq<QueryRow>, i: nat): nat
    requires i < |rows|
  {
    |RoomsOf(rows[..i], rows[i].propertyId)|
  }

  // Every row's room stands at its place in its property.
  lemma {:induction false} RowsKeepTheirPlace(rows: seq<QueryRow>, i: nat)
    requires i < |rows|
    ensures var id := rows[i].propertyId;
            && id in FirstIds(rows)
            && Rank(rows, i) < |RoomsOf(rows, id)| && RoomsOf(rows, id)[Rank(rows, i)] == rows[i].room
  {
    RowsHaveGroups(rows, i);
    var n := |rows| - 1;
    if i < n {
      RowsKeepTheirPlace(rows[..n], i);
      assert rows[..n][..i] == rows[..i];
    }
  }

  // And rows of one property keep their order.
  lemma RanksAscend(rows: seq<QueryRow>, i: nat, j: nat)
    requires i < j < |rows| && rows[i].propertyId == rows[j].propertyId
    ensures Rank(rows, i) < Rank(rows, j)
  {
    RowsKeepTheirPlace(rows[..j], i);
    assert rows[..j][..i] == rows[..i];
  }

  // The groups together hold as many rooms as there are rows: with RowsKeepTheirPlace, every row
  // lands in exactly one property, once.
  lemma {:induction false} GroupingLosesNothing(rows: seq<QueryRow>)
    ensures RoomCount(Grouped(rows)) == |rows|
  {
    if rows != [] {
      var n := |rows| - 1;
      GroupingLosesNothing(rows[..n]);
      var ids, id := FirstIds(rows[..n]), rows[n].propertyId;
      forall i, j | 0 <= i < j < |ids| ensures ids[i] != ids[j] { IdsInOrder(rows[..n], i, j); }
      OneMoreRow(rows, ids);
      if id !in ids { NewGroup(rows); }
    }
  }

  lemma {:induction false} NewGroup(rows: seq<QueryRow>)
    requires rows != [] && rows[|rows| - 1].propertyId !in FirstIds(rows[..|rows| - 1])
    ensures RoomCount(Grouped(rows)) == RoomCount(Groups(rows, FirstIds(rows[..|rows| - 1]))) + 1
  {
    var n := |rows| - 1;
    NewIdHasNoRooms(rows[..n], rows[n].propertyId);
    assert FirstIds(rows)[..|FirstIds(rows)| - 1] == FirstIds(rows[..n]);
    GroupsPrefix(rows, FirstIds(rows));
    assert Grouped(rows)[|Grouped(rows)| - 1].rooms == [] + [rows[n].room];
  }

  // ---- paging loses nothing ----

  // Pages 1 to n, one after the other.
  function Pages<T>(list: seq<T>, pageSize: nat, n: nat): seq<T> {
    if n == 0 then [] else Pages(list, pageSize, n - 1) + Slice(list, (n - 1) * pageSize, pageSize)
  }

  lemma OnePageMore(n: nat, pageSize: nat)
    requires n > 0
    ensures 0 <= (n - 1) * pageSize && n * pageSize == (n - 1) * pageSize + pageSize
  {
  }

  lemma SliceFollows<T>(list: seq<T>, offset: nat, size: nat)
    ensures list[..Min(offset, |list|)] + Slice(list, offset, size) == list[..Min(offset + size, |list|)]
  {
  }

  // The pages concatenate to the list, without gaps or repeats.
  lemma {:induction false} PagesConcatenate<T>(list: seq<T>, pageSize: nat, n: nat)
    ensures Pages(list, pageSize, n) == list[..Min(n * pageSize, |list|)]
  {
    if n > 0 {
      PagesConcatenate(list, pageSize, n - 1);
      OnePageMore(n, pageSize);
      SliceFollows(list, (n - 1) * pageSize, pageSize);
    }
  }

  lemma OnlyOnePage<T>(groups: seq<T>, page: nat, pageSize: nat, results: seq<T>)
    requires page > 0 && IsPage(groups, page, pageSize, results)
    ensures results == Slice(groups, (page - 1) * pageSize, pageSize)
  {
    OffsetIsNatural(page, pageSize);
  }

  function Concatenated<T>(pages: seq<seq<T>>): seq<T> {
    if pages == [] then [] else Concatenated(pages[..|pages| - 1]) + pages[|pages| - 1]
  }

  // What searches return for pages 1 to n, one after the other, is the first n * pageSize groups.
  lemma {:induction false} ResultsConcatenate<T>(groups: seq<T>, pageSize: nat, pages: seq<seq<T>>)
    requires forall p :: 0 <= p < |pages| ==> IsPage(groups, p + 1, pageSize, pages[p])
    ensures Concatenated(pages) == groups[..Min(|pages| * pageSize, |groups|)]
  {
    if pages != [] {
      var n := |pages|;
      var before := pages[..n - 1];
      assert forall p :: 0 <= p < |before| ==> before[p] == pages[p];
      ResultsConcatenate(groups, pageSize, before);
      assert IsPage(groups, n - 1 + 1, pageSize, pages[n - 1]);
      OnlyOnePage(groups, n, pageSize, pages[n - 1]);
      OnePageMore(n, pageSize);
      SliceFollows(groups, (n - 1) * pageSize, pageSize);
    }
  }

  // The groups, in terms of the rows: one for each property, with the columns of its first row and its
  // rooms.
  lemma {:induction false} PropertyIsFirstRows(rows: seq<QueryRow>, id: string)
    requires id in FirstIds(rows)
    ensures FirstRow(rows, id) < |rows| && PropertyOf(rows, id) == rows[FirstRow(rows, id)].property
  {
    var before := rows[..|rows| - 1];
    FirstRowIs(rows, id);
    FirstRowIs(before, id);
    if id in FirstIds(before) { PropertyIsFirstRows(before, id); }
  }

  lemma GroupsAre(rows: seq<QueryRow>, i: nat)
    requires i < |FirstIds(rows)|
    ensures |Grouped(rows)| == |FirstIds(rows)|
    ensures var id, group := FirstIds(rows)[i], Grouped(rows)[i];
            && group.propertyId == id && group.rooms == RoomsOf(rows, id)
            && FirstRow(rows, id) < |rows| && group.property == rows[FirstRow(rows, id)].property
  {
    PropertyIsFirstRows(rows, FirstIds(rows)[i]);
  }

  lemma WrapIs(n: int)
    requires 0 <= n < INT64_LIMIT
    ensures Wrap(n) == n
  {
  }

  // The page asked for is the page returned exactly when its offset does not overflow, or wraps
  // around to beyond the last property.
  lemma PageIsRightIff<T>(list: seq<T>, offset: nat, pageSize: nat)
    requires 0 < pageSize && |list| < INT64_LIMIT
    ensures PageAt(list, Wrap(offset), pageSize) == PageAt(list, offset, pageSize)
            <==> offset < INT64_LIMIT || Wrap(offset) >= |list|
  {
    if offset < INT64_LIMIT {
      WrapIs(offset);
    } else {
      assert Slice(list, offset, pageSize) == [];
      if 0 <= Wrap(offset) < |list| {
        assert |Slice(list, Wrap(offset), pageSize)| > 0;
      }
    }
  }

  // An offset that overflows to a panic.
  lemma OverflowingPage()
    ensures Wrap(Offset(184467440737095518, 50)) < 0
  {
  }
}
