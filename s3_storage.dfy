/** `AmazonS3DataStorage`: groups records by customer and minute, names a
    half-hour folder after each group's first record, and writes each group as
    one text object, creating a zero-byte folder marker first when the folder
    is not listed yet. A failed request abandons its group only. */
module S3Storage {
  import opened Wrappers
  import opened Text
  import opened CivilTime
  import opened WebTransactions
  import opened ObjectStore
  import opened Grouping

  // ------------------------------------------------------ folder naming

  /** `GetMinuteInterval`: 30 for minutes above 29, 0 otherwise. */
  function GetMinuteInterval(minute: int): int {
    if minute > 29 then 30 else 0
  }

  /** Within an hour the interval is the start of the minute's half hour. */
  lemma MinuteIntervalIsHalfHourStart(minute: int)
    requires 0 <= minute < 60
    ensures var r := GetMinuteInterval(minute);
      (r == 0 || r == 30) && r <= minute < r + 30
    ensures GetMinuteInterval(minute) == 0 <==> minute <= 29
  {
  }

  /** `FormatDateUnitWithLeadingZeroes`: a "0" in front of values below 10.
      This is the folder namer's own string concatenation, kept apart from
      `ZeroPad` (which models the `MM`/`dd` date specifiers) because the two
      differ outside 0..99: a negative value gets "0" before its minus sign
      here. `TwoDigitUnit` shows they agree on every date part. */
  function FormatDateUnitWithLeadingZeroes(dateUnit: int): (s: string)
    ensures 0 <= dateUnit ==> 2 <= |s| && AllDigits(s)
  {
    if dateUnit < 10 then "0" + IntToString(dateUnit) else IntToString(dateUnit)
  }

  /** On 0..99 the result is the value in exactly two digits, which read back as the value. */
  lemma TwoDigitUnit(dateUnit: int)
    requires 0 <= dateUnit < 100
    ensures FormatDateUnitWithLeadingZeroes(dateUnit) == ZeroPad(dateUnit, 2)
    ensures |FormatDateUnitWithLeadingZeroes(dateUnit)| == 2
    ensures AllDigits(FormatDateUnitWithLeadingZeroes(dateUnit))
    ensures ParseNat(FormatDateUnitWithLeadingZeroes(dateUnit)) == dateUnit
  {
    NatToStringLength(dateUnit);
    ParseZeroPad(dateUnit, 2);
    var digits := NatToString(dateUnit);
    if dateUnit < 10 {
      assert ZeroPad(dateUnit, 2) == Zeros(1) + digits;
      assert Zeros(1) == "0";
    }
  }

  /** `BuildContainingFolderName` applied to a record's observation date:
      interval-HH-dd-MM-year. */
  function BuildContainingFolderName(d: DateTime): string {
    FormatDateUnitWithLeadingZeroes(GetMinuteInterval(d.minute)) + "-"
      + FormatDateUnitWithLeadingZeroes(d.hour) + "-"
      + FormatDateUnitWithLeadingZeroes(d.day) + "-"
      + FormatDateUnitWithLeadingZeroes(d.month) + "-"
      + IntToString(d.year)
  }

  /** The five parts of a folder name. */
  function FolderFields(d: DateTime): seq<string> {
    [FormatDateUnitWithLeadingZeroes(GetMinuteInterval(d.minute)), FormatDateUnitWithLeadingZeroes(d.hour),
     FormatDateUnitWithLeadingZeroes(d.day), FormatDateUnitWithLeadingZeroes(d.month), IntToString(d.year)]
  }

  /** The interval part is "00" in the first half hour and "30" in the second. */
  lemma IntervalField(minute: int)
    requires 0 <= minute < 60
    ensures FormatDateUnitWithLeadingZeroes(GetMinuteInterval(minute)) == (if minute < 30 then "00" else "30")
  {
    assert NatToString(0) == "0";
    assert NatToString(3) == "3";
    assert NatToString(30) == "30";
  }

  lemma FolderFieldsFacts(d: DateTime)
    requires Valid(d)
    ensures var f := FolderFields(d);
      f[0] == (if d.minute < 30 then "00" else "30")
      && |f[1]| == 2 && |f[2]| == 2 && |f[3]| == 2
      && (forall i :: 0 <= i < 5 ==> AllDigits(f[i]))
      && ParseNat(f[1]) == d.hour && ParseNat(f[2]) == d.day
      && ParseNat(f[3]) == d.month && ParseNat(f[4]) == d.year
  {
    IntervalField(d.minute);
    TwoDigitUnit(d.hour);
    TwoDigitUnit(d.day);
    TwoDigitUnit(d.month);
    ParseNatToString(d.year);
  }

  /** The folder name has five '-'-separated parts: "00" or "30" (by the half
      hour), then hour, day and month in two digits, then the year; each part
      reads back as its field. */
  lemma FolderNameShape(d: DateTime)
    requires Valid(d)
    ensures var parts := Split(BuildContainingFolderName(d), '-');
      |parts| == 5
      && parts[0] == (if d.minute < 30 then "00" else "30")
      && |parts[1]| == 2 && |parts[2]| == 2 && |parts[3]| == 2
      && (forall i :: 0 <= i < 5 ==> AllDigits(parts[i]))
      && ParseNat(parts[1]) == d.hour && ParseNat(parts[2]) == d.day
      && ParseNat(parts[3]) == d.month && ParseNat(parts[4]) == d.year
  {
    var f := FolderFields(d);
    FolderFieldsFacts(d);
    forall i | 0 <= i < 5 ensures '-' !in f[i] {
      NotDashInDigits(f[i]);
    }
    Join5(f[0], f[1], f[2], f[3], f[4], "-");
    assert BuildContainingFolderName(d) == Join(f, "-");
    SplitJoin(f, '-');
  }

  /** Records stamped in the same minute go to the same folder, so any record of
      a group may name the group's folder. */
  lemma SameMinuteSameFolder(a: DateTime, b: DateTime)
    requires Valid(a) && Valid(b) && MinuteStamp(a) == MinuteStamp(b)
    ensures BuildContainingFolderName(a) == BuildContainingFolderName(b)
  {
    MinuteStampInjective(a, b);
  }

  // ----------------------------------------------------------- grouping

  /** The dictionary key of a record: customer name, "-", minute stamp;
      `None` where reading the record's date throws. */
  function GroupKey(wt: WebTransaction): (r: Option<string>)
    ensures r.Some? <==> HasObservationDate(wt)
  {
    match FormattedObservationDateMinutes(wt)
    case None => None
    case Some(stamp) => Some(OrEmpty(wt.customerName) + "-" + stamp)
  }

  /** Two dated records share a key exactly when they share the customer name
      and the minute stamp. */
  lemma GroupKeyParts(a: WebTransaction, b: WebTransaction)
    requires HasObservationDate(a) && HasObservationDate(b)
    ensures GroupKey(a) == GroupKey(b) <==>
      OrEmpty(a.customerName) == OrEmpty(b.customerName)
      && FormattedObservationDateMinutes(a) == FormattedObservationDateMinutes(b)
  {
    var sa, sb := FormattedObservationDateMinutes(a).value, FormattedObservationDateMinutes(b).value;
    DashJoinInjective(OrEmpty(a.customerName), sa, OrEmpty(b.customerName), sb);
  }

  /** With suffixes of equal length, "c-s" determines c and s. */
  lemma DashJoinInjective(ca: string, sa: string, cb: string, sb: string)
    requires |sa| == |sb|
    ensures ca + "-" + sa == cb + "-" + sb <==> ca == cb && sa == sb
  {
    var ka, kb := ca + "-" + sa, cb + "-" + sb;
    if ka == kb {
      assert |ca| == |cb|;
      assert ca == ka[..|ca|];
      assert cb == kb[..|cb|];
      assert sa == ka[|ca| + 1..];
      assert sb == kb[|cb| + 1..];
    }
  }

  /** Every record has a key exactly when every record's date can be read. */
  lemma AllKeyedIffDated(records: seq<WebTransaction>)
    ensures AllKeyed(records, GroupKey) <==> AllDated(records)
  {
  }

  /** `GroupRecordsPerCustomerAndDate`: the one-pass grouping by `GroupKey`;
      `None` where reading a record's date throws. */
  method GroupRecordsPerCustomerAndDate(records: seq<WebTransaction>) returns (r: Option<Groups<WebTransaction>>)
    ensures r.Some? <==> AllDated(records)
    ensures r.Some? ==> Indexes(records, GroupKey, r.value.keys, r.value.groups)
  {
    AllKeyedIffDated(records);
    r := GroupBy(records, GroupKey);
  }

  /** Every record of a group can be rendered. */
  lemma AllDatedSelect(records: seq<WebTransaction>, key: string)
    ensures AllDated(Select(records, GroupKey, key))
  {
    SelectMembers(records, GroupKey, key);
    forall i | 0 <= i < |Select(records, GroupKey, key)|
      ensures HasObservationDate(Select(records, GroupKey, key)[i])
    {
      assert Select(records, GroupKey, key)[i] in Select(records, GroupKey, key);
    }
  }

  /** Every record of a group is named by the same folder as the group's first record. */
  lemma FolderRepresentative(records: seq<WebTransaction>, key: string, x: WebTransaction)
    requires x in Select(records, GroupKey, key)
    ensures HasObservationDate(x) && HasObservationDate(Select(records, GroupKey, key)[0])
    ensures BuildContainingFolderName(ObservationDateUtc(x).value)
      == BuildContainingFolderName(ObservationDateUtc(Select(records, GroupKey, key)[0]).value)
  {
    SelectMembers(records, GroupKey, key);
    var first := Select(records, GroupKey, key)[0];
    assert first in Select(records, GroupKey, key);
    GroupKeyParts(x, first);
    SameMinuteSameFolder(ObservationDateUtc(x).value, ObservationDateUtc(first).value);
  }

  // --------------------------------------------------- content and keys

  /** `BuildRawDataFileContent`: each record's line, with a newline between
      consecutive lines. The records are a group's, whose dates were read
      while grouping. */
  method BuildRawDataFileContent(records: seq<WebTransaction>, showDate: DateTime -> string)
    returns (content: string)
    requires AllDated(records)
    ensures content == Join(Lines(records, showDate), NewLine)
  {
    content := "";
    var size := |records|;
    for i := 0 to size
      invariant AllDated(records[..i])
      invariant content == Join(Lines(records[..i], showDate), NewLine) + (if 0 < i < size then NewLine else "")
    {
      var line := ToTabDelimitedString(records[i], showDate).value;
      LinesStep(records, showDate, i);
      if i > 0 {
        JoinSnoc(Lines(records[..i], showDate), line, NewLine);
      }
      content := content + line;
      if i < size - 1 {
        content := content + NewLine;
      }
    }
    assert records[..size] == records;
  }

  /** No records make empty content. */
  lemma EmptyContent(showDate: DateTime -> string)
    ensures Join(Lines([], showDate), NewLine) == ""
  {
  }

  /** With no line feed inside a record's line, the content of a group holds
      one line feed fewer than it has records: no trailing newline. */
  lemma ContentLineFeeds(records: seq<WebTransaction>, showDate: DateTime -> string)
    requires AllDated(records) && records != []
    requires forall i :: 0 <= i < |records| ==> CountChar(Lines(records, showDate)[i], '\n') == 0
    ensures CountChar(Join(Lines(records, showDate), NewLine), '\n') == |records| - 1
  {
    NewLineHasOneLineFeed();
    JoinCount(Lines(records, showDate), NewLine, '\n');
  }

  /** The file key of `SaveInS3`: ".txt" appended unless already there. */
  function NormalizedFileKey(fileKey: string): (r: string)
    ensures EndsWith(r, ".txt")
    ensures EndsWith(fileKey, ".txt") ==> r == fileKey
    ensures !EndsWith(fileKey, ".txt") ==> r == fileKey + ".txt"
  {
    if EndsWith(fileKey, ".txt") then fileKey
    else
      var r := fileKey + ".txt";
      assert r[|r| - 4..] == ".txt";
      r
  }

  /** Normalising a key twice is normalising it once. */
  lemma NormalizedFileKeyIdempotent(fileKey: string)
    ensures NormalizedFileKey(NormalizedFileKey(fileKey)) == NormalizedFileKey(fileKey)
  {
  }

  /** A group key ends in a digit of the minute, so its object is named key + ".txt". */
  lemma GroupFileKey(wt: WebTransaction)
    requires HasObservationDate(wt)
    ensures NormalizedFileKey(GroupKey(wt).value) == GroupKey(wt).value + ".txt"
  {
    var d := ObservationDateUtc(wt).value;
    var f := MinuteStampFields(d);
    ZeroPadWidth(d.minute, 2);
    Join5(f[0], f[1], f[2], f[3], f[4], "-");
    var stamp := FormattedObservationDateMinutes(wt).value;
    assert stamp == MinuteStamp(d);
    assert stamp[|stamp| - 1] == f[4][1];
    var key := GroupKey(wt).value;
    assert key[|key| - 1] == stamp[|stamp| - 1];
    assert IsDigit(key[|key| - 1]);
  }

  // ------------------------------------------------ writing one group

  /** The store after `SaveInS3` for a group whose folder is `folder` and
      whose rendered content is `content`: list the folder; on failure stop;
      if listed, write the content; otherwise write the marker and, if that
      succeeded, the content. */
  function SaveInS3Spec(st: StoreState, fails: nat -> bool, top: string, fileKey: string,
                        folder: string, content: string): StoreState
  {
    var key := NormalizedFileKey(fileKey);
    var listed := AfterList(st, top, folder);
    if fails(|st.log|) then listed
    else if HasCommonPrefix(st.objects, top, folder) then
      AfterPut(listed, fails, PathOf(top, folder), key, content)
    else
      var marked := AfterPut(listed, fails, top, folder + "/", "");
      if fails(|listed.log|) then marked
      else AfterPut(marked, fails, PathOf(top, folder), key, content)
  }

  /** A group's requests extend the log: its folder's listing first, then at
      most two writes; no object is removed. */
  lemma GroupLogShape(st: StoreState, fails: nat -> bool, top: string, fileKey: string,
                      folder: string, content: string)
    ensures var after := SaveInS3Spec(st, fails, top, fileKey, folder, content);
      var n := |st.log|;
      n < |after.log| <= n + 3 && after.log[..n] == st.log && after.log[n] == List(top, folder)
      && (forall i :: n < i < |after.log| ==> after.log[i].Put?)
      && (forall p :: p in st.objects ==> p in after.objects)
  {
  }

  /** The requests one group makes: the listing of its folder first, then only
      writes, at most three requests in all; the zero-byte marker exactly when
      the listing succeeded and found no such folder; the content exactly when
      the listing succeeded and either the folder was listed or the marker was
      written. Objects are never removed. */
  lemma GroupRequests(st: StoreState, fails: nat -> bool, top: string, fileKey: string,
                      folder: string, content: string)
    ensures var after := SaveInS3Spec(st, fails, top, fileKey, folder, content);
      var n := |st.log|;
      var marker := Put(top, folder + "/", "");
      var write := Put(PathOf(top, folder), NormalizedFileKey(fileKey), content);
      n < |after.log| <= n + 3 && after.log[..n] == st.log && after.log[n] == List(top, folder)
      && (forall i :: n < i < |after.log| ==> after.log[i].Put?)
      && (marker in after.log[n..] <==> !fails(n) && !HasCommonPrefix(st.objects, top, folder))
      && (write in after.log[n..] <==>
            !fails(n) && (HasCommonPrefix(st.objects, top, folder) || !fails(n + 1)))
      && (forall p :: p in st.objects ==> p in after.objects)
  {
    var marker := Put(top, folder + "/", "");
    var write := Put(PathOf(top, folder), NormalizedFileKey(fileKey), content);
    assert marker != write by {
      assert |marker.bucket| < |write.bucket|;
    }
    var after := SaveInS3Spec(st, fails, top, fileKey, folder, content);
    var n := |st.log|;
    if fails(n) {
      assert after.log[n..] == [List(top, folder)];
    } else if HasCommonPrefix(st.objects, top, folder) {
      assert after.log[n..] == [List(top, folder), write];
    } else if fails(n + 1) {
      assert after.log[n..] == [List(top, folder), marker];
    } else {
      assert after.log[n..] == [List(top, folder), marker, write];
    }
  }

  /** When all of a group's requests succeed (two where the folder is
      already listed, three otherwise), its content is stored at
      top/folder/key and the folder is listed from then on. */
  lemma GroupWritten(st: StoreState, fails: nat -> bool, top: string, fileKey: string,
                     folder: string, content: string)
    requires !fails(|st.log|) && !fails(|st.log| + 1)
    requires HasCommonPrefix(st.objects, top, folder) || !fails(|st.log| + 2)
    ensures var after := SaveInS3Spec(st, fails, top, fileKey, folder, content);
      var path := PathOf(PathOf(top, folder), NormalizedFileKey(fileKey));
      path in after.objects && after.objects[path] == content
      && HasCommonPrefix(after.objects, top, folder)
  {
    var after := SaveInS3Spec(st, fails, top, fileKey, folder, content);
    var path := PathOf(PathOf(top, folder), NormalizedFileKey(fileKey));
    assert path == PathOf(top, folder) + "/" + NormalizedFileKey(fileKey);
    assert path[|PathOf(top, folder)|] == '/';
    assert RolledUp(path, PathOf(top, folder));
  }

  /** Once a group's listing and first write have succeeded, its folder is listed. */
  lemma FolderListedAfterSave(st: StoreState, fails: nat -> bool, top: string, fileKey: string,
                              folder: string, content: string)
    requires !fails(|st.log|) && !fails(|st.log| + 1)
    ensures HasCommonPrefix(SaveInS3Spec(st, fails, top, fileKey, folder, content).objects, top, folder)
  {
    var after := SaveInS3Spec(st, fails, top, fileKey, folder, content);
    GroupRequests(st, fails, top, fileKey, folder, content);
    if HasCommonPrefix(st.objects, top, folder) {
      var p :| p in st.objects && RolledUp(p, PathOf(top, folder));
      assert p in after.objects;
    } else {
      var marker := PathOf(top, folder + "/");
      assert marker == PathOf(top, folder) + "/";
      assert marker[|PathOf(top, folder)|] == '/';
      assert RolledUp(marker, PathOf(top, folder));
      assert marker in after.objects;
    }
  }

  /** A second save into a folder that the first save listed or created
      writes no marker. */
  lemma SecondSaveWritesNoMarker(st: StoreState, fails: nat -> bool, top: string, folder: string,
                                 key1: string, content1: string, key2: string, content2: string)
    requires !fails(|st.log|) && !fails(|st.log| + 1)
    ensures var mid := SaveInS3Spec(st, fails, top, key1, folder, content1);
      var after := SaveInS3Spec(mid, fails, top, key2, folder, content2);
      Put(top, folder + "/", "") !in after.log[|mid.log|..]
  {
    var mid := SaveInS3Spec(st, fails, top, key1, folder, content1);
    FolderListedAfterSave(st, fails, top, key1, folder, content1);
    GroupRequests(mid, fails, top, key2, folder, content2);
  }

  // ------------------------------------------------ writing every group

  /** The folder a group goes to, named after its first record. */
  function FolderOf(group: seq<WebTransaction>): string
    requires group != [] && HasObservationDate(group[0])
  {
    BuildContainingFolderName(ObservationDateUtc(group[0]).value)
  }

  /** The store after `SaveInS3(fileKey, group)`. */
  function SaveGroupSpec(st: StoreState, fails: nat -> bool, top: string, fileKey: string,
                         group: seq<WebTransaction>, showDate: DateTime -> string): StoreState
    requires group != [] && AllDated(group)
  {
    SaveInS3Spec(st, fails, top, fileKey, FolderOf(group), Join(Lines(group, showDate), NewLine))
  }

  /** The store after the loop of `Save` over the groups under `keys`, in order. */
  function SaveGroupsSpec(st: StoreState, fails: nat -> bool, top: string, records: seq<WebTransaction>,
                          keys: seq<string>, showDate: DateTime -> string): StoreState
    requires forall k :: k in keys ==> Select(records, GroupKey, k) != []
  {
    if keys == [] then st
    else
      var last := keys[|keys| - 1];
      var group := Select(records, GroupKey, last);
      AllDatedSelect(records, last);
      SaveGroupSpec(SaveGroupsSpec(st, fails, top, records, keys[..|keys| - 1], showDate),
                    fails, top, last, group, showDate)
  }

  /** The group under `keys[i]` runs after the groups before it. */
  lemma SaveGroupsStep(st: StoreState, fails: nat -> bool, top: string, records: seq<WebTransaction>,
                       keys: seq<string>, i: nat, showDate: DateTime -> string)
    requires i < |keys| && forall k :: k in keys ==> Select(records, GroupKey, k) != []
    ensures AllDated(Select(records, GroupKey, keys[i]))
    ensures SaveGroupsSpec(st, fails, top, records, keys[..i + 1], showDate)
      == SaveGroupSpec(SaveGroupsSpec(st, fails, top, records, keys[..i], showDate), fails, top, keys[i],
                       Select(records, GroupKey, keys[i]), showDate)
  {
    AllDatedSelect(records, keys[i]);
    assert keys[..i + 1][..i] == keys[..i];
  }

  /** The store after `Save(records)`: unchanged when grouping throws. */
  function SaveSpec(st: StoreState, fails: nat -> bool, top: string, records: seq<WebTransaction>,
                    showDate: DateTime -> string): StoreState
  {
    if AllDated(records) then
      GroupsNonEmpty(records, GroupKey);
      SaveGroupsSpec(st, fails, top, records, DistinctKeys(records, GroupKey), showDate)
    else st
  }

  /** With every date readable, `Save` runs the groups' requests in dictionary order. */
  lemma SaveSpecDated(st: StoreState, fails: nat -> bool, top: string, records: seq<WebTransaction>,
                      showDate: DateTime -> string)
    requires AllDated(records)
    ensures forall k :: k in DistinctKeys(records, GroupKey) ==> Select(records, GroupKey, k) != []
    ensures SaveSpec(st, fails, top, records, showDate)
      == SaveGroupsSpec(st, fails, top, records, DistinctKeys(records, GroupKey), showDate)
  {
    GroupsNonEmpty(records, GroupKey);
  }

  /** Saving no records makes no request. */
  lemma SaveNothing(st: StoreState, fails: nat -> bool, top: string, showDate: DateTime -> string)
    ensures SaveSpec(st, fails, top, [], showDate) == st
  {
  }

  /** The folders listed by a run of requests, in order. */
  function Listings(ops: seq<StoreOp>): seq<string> {
    if ops == [] then []
    else Listings(ops[..|ops| - 1]) + (if ops[|ops| - 1].List? then [ops[|ops| - 1].prefix] else [])
  }

  lemma {:induction false} ListingsAppend(a: seq<StoreOp>, b: seq<StoreOp>)
    ensures Listings(a + b) == Listings(a) + Listings(b)
    decreases |b|
  {
    if b == [] {
      assert a + b == a;
    } else {
      ListingsAppend(a, b[..|b| - 1]);
      assert (a + b)[..|a + b| - 1] == a + b[..|b| - 1];
    }
  }

  lemma {:induction false} ListingsOfWrites(ops: seq<StoreOp>)
    requires forall i :: 0 <= i < |ops| ==> ops[i].Put?
    ensures Listings(ops) == []
    decreases |ops|
  {
    if ops != [] {
      ListingsOfWrites(ops[..|ops| - 1]);
    }
  }

  /** The folders of the groups under `keys`, in order. */
  function FoldersOf(records: seq<WebTransaction>, keys: seq<string>): seq<string>
    requires forall k :: k in keys ==> Select(records, GroupKey, k) != []
  {
    if keys == [] then []
    else
      var last := keys[|keys| - 1];
      AllDatedSelect(records, last);
      FoldersOf(records, keys[..|keys| - 1]) + [FolderOf(Select(records, GroupKey, last))]
  }

  /** A listing followed only by writes adds exactly one folder to the listings
      made since position `n`. */
  lemma ListingsExtend(n: nat, mid: seq<StoreOp>, log: seq<StoreOp>, top: string, folder: string)
    requires n <= |mid| < |log| && log[..|mid|] == mid && log[|mid|] == List(top, folder)
    requires forall i :: |mid| < i < |log| ==> log[i].Put?
    ensures Listings(log[n..]) == Listings(mid[n..]) + [folder]
  {
    var m := |mid|;
    var tail := log[m + 1..];
    assert forall i :: 0 <= i < |tail| ==> tail[i] == log[m + 1 + i];
    assert log[m..] == [log[m]] + tail;
    ListingThenWrites(log[m], tail);
    assert log[n..] == mid[n..] + log[m..];
    ListingsAppend(mid[n..], log[m..]);
  }

  /** A listing followed only by writes lists exactly its own folder. */
  lemma ListingThenWrites(op: StoreOp, tail: seq<StoreOp>)
    requires op.List? && forall i :: 0 <= i < |tail| ==> tail[i].Put?
    ensures Listings([op] + tail) == [op.prefix]
  {
    ListingsOfWrites(tail);
    ListingsAppend([op], tail);
    assert [op][..0] == [];
  }

  /** One more group adds exactly its folder to the listings made since `st`. */
  lemma ListingStep(st: StoreState, mid: StoreState, fails: nat -> bool, top: string, fileKey: string,
                    folder: string, content: string)
    requires |st.log| <= |mid.log| && mid.log[..|st.log|] == st.log
    ensures var after := SaveInS3Spec(mid, fails, top, fileKey, folder, content);
      |st.log| <= |after.log| && after.log[..|st.log|] == st.log
      && Listings(after.log[|st.log|..]) == Listings(mid.log[|st.log|..]) + [folder]
      && (forall p :: p in mid.objects ==> p in after.objects)
  {
    var after := SaveInS3Spec(mid, fails, top, fileKey, folder, content);
    GroupLogShape(mid, fails, top, fileKey, folder, content);
    ListingsExtend(|st.log|, mid.log, after.log, top, folder);
    assert after.log[..|st.log|] == after.log[..|mid.log|][..|st.log|];
  }

  /** Failures are contained per group: whatever fails, `Save` lists the folder
      of every group, one listing per group in dictionary order, and never
      removes an object. */
  lemma {:induction false} EveryGroupAttempted(st: StoreState, fails: nat -> bool, top: string,
                                               records: seq<WebTransaction>, keys: seq<string>,
                                               showDate: DateTime -> string)
    requires forall k :: k in keys ==> Select(records, GroupKey, k) != []
    ensures var after := SaveGroupsSpec(st, fails, top, records, keys, showDate);
      |st.log| <= |after.log| && after.log[..|st.log|] == st.log
      && Listings(after.log[|st.log|..]) == FoldersOf(records, keys)
      && (forall p :: p in st.objects ==> p in after.objects)
    decreases |keys|
  {
    if keys == [] {
      assert st.log[|st.log|..] == [];
    } else {
      var init := keys[..|keys| - 1];
      var last := keys[|keys| - 1];
      EveryGroupAttempted(st, fails, top, records, init, showDate);
      var mid := SaveGroupsSpec(st, fails, top, records, init, showDate);
      var group := Select(records, GroupKey, last);
      AllDatedSelect(records, last);
      var folder := FolderOf(group);
      var content := Join(Lines(group, showDate), NewLine);
      ListingStep(st, mid, fails, top, last, folder, content);
    }
  }
}

/** The writer itself, over a client whose requests are logged and may fail. */
module S3Writer {
  import opened Wrappers
  import opened Text
  import opened CivilTime
  import opened WebTransactions
  import opened ObjectStore
  import opened Grouping
  import opened S3Storage

  /** `AmazonS3DataStorage`: the top bucket, the S3 client every request goes
      to, and the culture's rendering of dates used in the lines. */
  class AmazonS3DataStorage {
    const topBucketName: string
    const client: S3Client
    const showDate: DateTime -> string

    constructor (topBucketName: string, client: S3Client, showDate: DateTime -> string)
      ensures this.topBucketName == topBucketName && this.client == client && this.showDate == showDate
    {
      this.topBucketName := topBucketName;
      this.client := client;
      this.showDate := showDate;
    }

    /** The constructor's argument check: `None` (ArgumentNullException) for a
        null or empty bucket name. */
    static method Create(topBucketName: Option<string>, client: S3Client, showDate: DateTime -> string)
      returns (r: Option<AmazonS3DataStorage>)
      ensures r.Some? <==> topBucketName.Some? && topBucketName.value != ""
      ensures r.Some? ==> fresh(r.value) && r.value.topBucketName == topBucketName.value
                          && r.value.client == client && r.value.showDate == showDate
    {
      if topBucketName.None? || topBucketName.value == "" {
        return None;
      }
      var storage := new AmazonS3DataStorage(topBucketName.value, client, showDate);
      r := Some(storage);
    }

    /** `Save`: groups the records, then saves each group in dictionary order;
        `false` where grouping throws, before any request. */
    method Save(records: seq<WebTransaction>) returns (ok: bool)
      modifies client
      ensures ok <==> AllDated(records)
      ensures client.State() == SaveSpec(old(client.State()), client.fails, topBucketName, records, showDate)
    {
      var grouping := GroupRecordsPerCustomerAndDate(records);
      if grouping.None? {
        return false;
      }
      SaveSpecDated(client.State(), client.fails, topBucketName, records, showDate);
      SaveGroups(records, grouping.value.keys, grouping.value.groups);
      ok := true;
    }

    /** The `foreach` of `Save`: `SaveInS3` for each key of the dictionary in
        order, whatever became of the groups before it. */
    method SaveGroups(records: seq<WebTransaction>, keys: seq<string>, groups: map<string, seq<WebTransaction>>)
      requires forall k :: k in keys ==> k in groups && groups[k] == Select(records, GroupKey, k)
      requires forall k :: k in keys ==> Select(records, GroupKey, k) != []
      modifies client
      ensures client.State() == SaveGroupsSpec(old(client.State()), client.fails, topBucketName, records, keys, showDate)
    {
      var st0 := client.State();
      var fails := client.fails;
      for i := 0 to |keys|
        invariant client.fails == fails
        invariant client.State() == SaveGroupsSpec(st0, fails, topBucketName, records, keys[..i], showDate)
      {
        var key := keys[i];
        SaveGroupsStep(st0, fails, topBucketName, records, keys, i, showDate);
        var group := groups[key];
        if groups != map[] {  // the dictionary-not-empty test, always true inside the loop
          SaveInS3(key, group);
        }
      }
      assert keys[..|keys|] == keys;
    }

    /** `SaveInS3`: normalise the key, name the folder after the first record,
        list it, create its marker when it is not listed, then write the
        content. A failed request ends this group's work. */
    method SaveInS3(fileKey: string, records: seq<WebTransaction>)
      requires records != [] && AllDated(records)
      modifies client
      ensures client.State() == SaveGroupSpec(old(client.State()), client.fails, topBucketName, fileKey,
                                              records, showDate)
    {
      var key := fileKey;
      if !EndsWith(key, ".txt") {
        key := key + ".txt";
      }
      var first := records[0];
      var containingFolder := BuildContainingFolderName(ObservationDateUtc(first).value);
      var found := client.ListObjects(topBucketName, containingFolder);
      match found
      case None =>
      case Some(listed) =>
        if listed {
          SaveWebTransactionsInFolder(containingFolder, key, records);
        } else {
          var created := client.PutObject(topBucketName, containingFolder + "/", "");
          if created {
            SaveWebTransactionsInFolder(containingFolder, key, records);
          }
        }
    }

    /** `SaveWebTransactionsInFolder`: one PutObject of the rendered content
        into bucket top/folder; a failure is reported and swallowed. */
    method SaveWebTransactionsInFolder(folderName: string, fileKey: string, records: seq<WebTransaction>)
      requires AllDated(records)
      modifies client
      ensures client.State() == AfterPut(old(client.State()), client.fails, PathOf(topBucketName, folderName),
                                         fileKey, Join(Lines(records, showDate), NewLine))
    {
      var fileContents := BuildRawDataFileContent(records, showDate);
      var _ := client.PutObject(topBucketName + "/" + folderName, fileKey, fileContents);
    }
  }
}
