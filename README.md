# Kinesis consumer: a verified model

This project models the consumer side of `AmazonKinesisClient`: a small
ingestion pipeline that drains every shard of an Amazon Kinesis stream from
its oldest record, decodes each payload as a `WebTransaction`, validates it,
and hands the accepted records of each fetch to a raw-data storage. There are
two storage back ends:

- `AmazonS3DataStorage` groups the records by customer and minute. It writes
  each group as one object, `<group key>.txt`, inside the folder
  `<interval>-<HH>-<dd>-<MM>-<year>` of a top bucket. It first lists the
  folder and creates a zero-byte folder marker when the folder is missing.
- `FileBasedDataStorage` appends one newline-terminated line per record to an
  existing local file.

The modules follow the program's structure:

| file | module | what it holds |
|---|---|---|
| `wrappers.dfy` | `Wrappers` | `Option` |
| `text.dfy` | `Text` | decimal rendering and parsing, zero padding, join/split, newline-terminated text, character counts, ASCII lower-casing |
| `civil_time.dfy` | `CivilTime` | milliseconds since the Unix epoch to a UTC calendar date and time (years 1 to 9999), proved to be a round trip; the `yyyy-MM-dd-HH-mm` stamp |
| `web_transaction.dfy` | `WebTransactions` | the record, its observation date, its tab-delimited line, and the three validation rules with `Validate` |
| `grouping.dfy` | `Grouping` | a dictionary of lists filled in one pass, keys in insertion order |
| `object_store.dfy` | `ObjectStore` | the S3 service: objects by path, a log of the requests, and an oracle that decides which requests fail |
| `s3_storage.dfy` | `S3Storage`, `S3Writer` | folder naming, grouping, content, key normalisation, the per-group request protocol, and the `AmazonS3DataStorage` class |
| `file_storage.dfy` | `FileStorage` | the local file system and the `FileBasedDataStorage` class |
| `consumer.dfy` | `Consumer` | `ReadFromStream`: the shard loop, the fetch loop, payload classification and the hand-off to storage |

The imperative parts of the source are written as methods with loops over
Dafny state:
- `Validate`;
- the dictionary fill of `GroupRecordsPerCustomerAndDate`;
- the `StringBuilder` loops of `BuildRawDataFileContent` and of the file
  back end's `Save`;
- the S3 request sequence;
- the drain loop.

Each method is proved against a specification function. The promised
properties are then proved about that function as lemmas. The S3 client and
the file system are classes whose state the methods change. The whole run
ends in one postcondition. `ReadFromStream` leaves the storage holding what
saving the accepted records of every non-empty fetch, in fetch order, makes
of the initial store or files.

## Model

Source paths are relative to the repository root.

| member | source | states |
|---|---|---|
| Text.NatToString | AmazonKinesisProducer/AmazonKinesisClient/WebTransaction.cs:66-68 | a natural number renders as at least one decimal digit, and as exactly one digit precisely when it is below 10 |
| Text.IntToString | AmazonKinesisProducer/AmazonKinesisClient/WebTransaction.cs:66-68 | a non-negative integer renders as digits only; a negative one as '-' followed by digits |
| Text.ParseNatToString | AmazonKinesisProducer/AmazonKinesisClient/WebTransaction.cs:66-68 | reading the decimal rendering back gives the number |
| Text.NatToStringLength | AmazonKinesisProducer/AmazonKinesisClient/AmazonS3DataStorage.cs:140-144 | digit counts: at most two below 100, exactly two on 10..99, at most four below 10000, at least four from 1000 |
| Text.ZeroPad | AmazonKinesisProducer/AmazonKinesisClient/WebTransaction.cs:52-53 | a zero-padded number is all digits and at least as wide as asked |
| Text.ParseZeroPad | AmazonKinesisProducer/AmazonKinesisClient/WebTransaction.cs:52-53 | leading zeros do not change the value read back |
| Text.ZeroPadWidth | AmazonKinesisProducer/AmazonKinesisClient/WebTransaction.cs:52-53 | values below 100 pad to exactly two digits and values below 10000 to exactly four |
| Text.SplitJoin | AmazonKinesisProducer/AmazonKinesisClient/WebTransaction.cs:56-72 | parts that do not hold the separator character split back out of their join |
| Text.TerminatedIsJoinPlusTerminator | AmazonKinesisProducer/AmazonKinesisClient/FileBasedDataStorage.cs:27-30 | a non-empty list of lines, each terminated, is the lines joined by the terminator plus one final terminator |
| Text.TerminatedAppend | AmazonKinesisProducer/AmazonKinesisClient/FileBasedDataStorage.cs:27-30 | terminating the lines of a concatenation is concatenating the terminated halves |
| Text.TerminatedLength | AmazonKinesisProducer/AmazonKinesisClient/FileBasedDataStorage.cs:27-30 | terminated text is as long as the lines plus one terminator per line |
| Text.TerminatedCount | AmazonKinesisProducer/AmazonKinesisClient/FileBasedDataStorage.cs:29 | when no line holds a character and the terminator holds it once, the text holds it once per line |
| Text.JoinCount | AmazonKinesisProducer/AmazonKinesisClient/AmazonS3DataStorage.cs:115-122 | when no part holds a character and the separator holds it once, the join holds it one time fewer than there are parts |
| Text.NewLineHasOneLineFeed | AmazonKinesisProducer/AmazonKinesisClient/FileBasedDataStorage.cs:29 | the newline "\r\n" holds exactly one line feed |
| Text.ToLower | AmazonKinesisProducer/AmazonKinesisClient/WebTransaction.cs:76 | lower-casing keeps the length |
| Text.ToLowerIdempotent | AmazonKinesisProducer/AmazonKinesisClient/WebTransaction.cs:76 | lower-casing twice is lower-casing once |
| CivilTime.Constants | AmazonKinesisProducer/AmazonKinesisClient/WebTransaction.cs:115 | the epoch 1970-01-01T00:00:00 lies 62135596800000 ms after 0001-01-01, and year 10000 starts 315537897600000 ms after it |
| CivilTime.YearContaining | AmazonKinesisProducer/AmazonKinesisClient/WebTransaction.cs:116 | the year found is the one whose days contain the given day number |
| CivilTime.MonthContaining | AmazonKinesisProducer/AmazonKinesisClient/WebTransaction.cs:116 | the month found is the one whose days contain the given day of the year |
| CivilTime.FromTotalMs | AmazonKinesisProducer/AmazonKinesisClient/WebTransaction.cs:113-118 | every millisecond count in DateTime's range gives a valid date with exactly that count |
| CivilTime.FromUnixMs | AmazonKinesisProducer/AmazonKinesisClient/WebTransaction.cs:113-118 | adding milliseconds to the epoch succeeds exactly when the result lies in years 1 to 9999; the result is a valid date that many milliseconds after the epoch |
| CivilTime.FromTotalMsOfTotalMs | AmazonKinesisProducer/AmazonKinesisClient/WebTransaction.cs:113-118 | turning a valid date into milliseconds and back gives the same date |
| CivilTime.TotalMsInjective | AmazonKinesisProducer/AmazonKinesisClient/WebTransaction.cs:113-118 | two valid dates with the same millisecond count are the same date |
| CivilTime.DayNumberInjective | AmazonKinesisProducer/AmazonKinesisClient/WebTransaction.cs:113-118 | two valid dates on the same day number have the same year, month and day |
| CivilTime.MsOfDayInjective | AmazonKinesisProducer/AmazonKinesisClient/WebTransaction.cs:113-118 | two valid times with the same milliseconds into the day have the same hour, minute, second and millisecond |
| CivilTime.MinuteStamp | AmazonKinesisProducer/AmazonKinesisClient/WebTransaction.cs:50-54 | the `yyyy-MM-dd-HH-mm` stamp of a date is 16 characters |
| CivilTime.MinuteStampReadsBack | AmazonKinesisProducer/AmazonKinesisClient/WebTransaction.cs:50-54 | the stamp splits on '-' into five digit fields that read back as year, month, day, hour and minute |
| CivilTime.MinuteStampInjective | AmazonKinesisProducer/AmazonKinesisClient/WebTransaction.cs:50-54 | dates with equal stamps agree on year, month, day, hour and minute |
| WebTransactions.ObservationDateUtc | AmazonKinesisProducer/AmazonKinesisClient/WebTransaction.cs:24-30 | the date exists exactly when epoch plus `UtcDateUnixMs` is representable, and it lies that many milliseconds after the epoch |
| WebTransactions.FormattedObservationDateMinutes | AmazonKinesisProducer/AmazonKinesisClient/WebTransaction.cs:50-54 | the stamp exists exactly when the date can be read, and it is 16 characters |
| WebTransactions.TabFields | AmazonKinesisProducer/AmazonKinesisClient/WebTransaction.cs:60-70 | six fields are rendered |
| WebTransactions.ToTabDelimitedString | AmazonKinesisProducer/AmazonKinesisClient/WebTransaction.cs:56-72 | the line exists exactly when the observation date can be read |
| WebTransactions.TabDelimitedShape | AmazonKinesisProducer/AmazonKinesisClient/WebTransaction.cs:56-72 | the line is the customer, URL, method, response time, timestamp and date, in that order, with one tab between consecutive fields and none at either end; without tabs inside the fields, splitting on tabs gives the six fields back |
| WebTransactions.Lines | AmazonKinesisProducer/AmazonKinesisClient/FileBasedDataStorage.cs:27-30 | one line per record |
| WebTransactions.LinesAppend | AmazonKinesisProducer/AmazonKinesisClient/FileBasedDataStorage.cs:27-30 | the lines of a concatenation are the lines of the first part followed by those of the second |
| WebTransactions.WithScheme | AmazonKinesisProducer/AmazonKinesisClient/WebTransaction.cs:93-94 | the URL handed to the parser holds "://", and a URL that already holds it is unchanged |
| WebTransactions.UrlRule | AmazonKinesisProducer/AmazonKinesisClient/WebTransaction.cs:90-111 | adding the scheme is idempotent and puts "http://" in front of a URL without "://"; a URL that does not parse is invalid, so is one whose host lookup throws or returns no address, and one whose host resolves to at least one address is valid |
| WebTransactions.IsValidUrl | AmazonKinesisProducer/AmazonKinesisClient/WebTransaction.cs:90-111 | the URL rule; its cases are stated by `UrlRule` |
| WebTransactions.Rules | AmazonKinesisProducer/AmazonKinesisClient/WebTransaction.cs:32-48 | `Validate` checks three rules |
| WebTransactions.BrokenMessagesCount | AmazonKinesisProducer/AmazonKinesisClient/WebTransaction.cs:32-48 | one message per broken rule; no message exactly when every rule holds |
| WebTransactions.Validate | AmazonKinesisProducer/AmazonKinesisClient/WebTransaction.cs:32-48 | the list built one rule after the other is the reference list of broken-rule messages, and it throws (None) for a null method or URL |
| WebTransactions.ViolationsSpelledOut | AmazonKinesisProducer/AmazonKinesisClient/WebTransaction.cs:32-48 | with a method and a URL, the messages are the method, response-time and URL messages in that order, each present exactly when its rule is broken |
| WebTransactions.ValidIff | AmazonKinesisProducer/AmazonKinesisClient/WebTransaction.cs:32-48 | the list is empty exactly when the method and URL are present, the lower-cased method is one of the eight verbs, 0 <= response time <= 30000 and the URL check passes |
| WebTransactions.AllRulesBroken | AmazonKinesisProducer/AmazonKinesisClient/WebTransaction.cs:32-48 | a record breaking all three rules gets exactly three messages, in rule order, with their texts (no short-circuit) |
| WebTransactions.MessageCount | AmazonKinesisProducer/AmazonKinesisClient/WebTransaction.cs:32-48 | the number of messages is the number of broken rules |
| WebTransactions.MethodCaseInsensitive | AmazonKinesisProducer/AmazonKinesisClient/WebTransaction.cs:74-77 | the method rule ignores letter case; "GET", "Get" and "get" pass |
| WebTransactions.PatchNotAllowed | AmazonKinesisProducer/AmazonKinesisClient/WebTransaction.cs:74-77 | "PATCH" is not an allowed method |
| WebTransactions.PatchIsRejected | AmazonKinesisProducer/AmazonKinesisClient/WebTransaction.cs:35-38 | an otherwise valid PATCH record gets exactly the message "Invalid web method: PATCH" |
| WebTransactions.ResponseTimeBounds | AmazonKinesisProducer/AmazonKinesisClient/WebTransaction.cs:79-88 | the bounds are inclusive: 0 and 30000 pass, -1 and 30001 fail |
| WebTransactions.IsWebMethodValid | AmazonKinesisProducer/AmazonKinesisClient/WebTransaction.cs:74-77 | the method rule; `MethodCaseInsensitive` and `PatchNotAllowed` state which verbs pass |
| WebTransactions.IsResponseTimeValid | AmazonKinesisProducer/AmazonKinesisClient/WebTransaction.cs:79-88 | the response-time rule; `ResponseTimeBounds` states its inclusive bounds |
| WebTransactions.Violations | AmazonKinesisProducer/AmazonKinesisClient/WebTransaction.cs:32-48 | the reference list of broken-rule messages; `ValidIff`, `ViolationsSpelledOut` and `MessageCount` state what it holds |
| S3Storage.MinuteIntervalIsHalfHourStart | AmazonKinesisProducer/AmazonKinesisClient/AmazonS3DataStorage.cs:173-181 | the interval is 0 for minutes 0-29 and 30 for minutes 30-59: the start of the minute's half hour |
| S3Storage.GetMinuteInterval | AmazonKinesisProducer/AmazonKinesisClient/AmazonS3DataStorage.cs:173-181 | the half-hour interval of a minute; `MinuteIntervalIsHalfHourStart` states it is the start of the minute's half hour |
| S3Storage.IntervalField | AmazonKinesisProducer/AmazonKinesisClient/AmazonS3DataStorage.cs:133-134 | the interval part of a folder name is "00" in the first half hour and "30" in the second |
| S3Storage.FormatDateUnitWithLeadingZeroes | AmazonKinesisProducer/AmazonKinesisClient/AmazonS3DataStorage.cs:140-144 | a non-negative value prints as at least two digits; `TwoDigitUnit` states the exact form on 0..99 |
| S3Storage.TwoDigitUnit | AmazonKinesisProducer/AmazonKinesisClient/AmazonS3DataStorage.cs:140-144 | on 0..99 the leading-zero format is exactly two digits that read back as the value |
| S3Storage.FolderNameShape | AmazonKinesisProducer/AmazonKinesisClient/AmazonS3DataStorage.cs:126-138 | the folder name splits on '-' into five parts: "00" or "30", then hour, day and month in two digits, then the year, each reading back as its field |
| S3Storage.BuildContainingFolderName | AmazonKinesisProducer/AmazonKinesisClient/AmazonS3DataStorage.cs:126-138 | the folder name of a date; `FolderNameShape` and `SameMinuteSameFolder` state its shape and what it depends on |
| S3Storage.SameMinuteSameFolder | AmazonKinesisProducer/AmazonKinesisClient/AmazonS3DataStorage.cs:126-138 | dates with the same minute stamp get the same folder |
| S3Storage.FolderRepresentative | AmazonKinesisProducer/AmazonKinesisClient/AmazonS3DataStorage.cs:48-49 | every record of a group gets the folder of the group's first record, so the first record is representative |
| S3Storage.GroupKey | AmazonKinesisProducer/AmazonKinesisClient/AmazonS3DataStorage.cs:151 | a record's key can be computed exactly when its observation date can be read |
| S3Storage.GroupKeyParts | AmazonKinesisProducer/AmazonKinesisClient/AmazonS3DataStorage.cs:151 | two records share a key exactly when they have the same customer and the same minute stamp |
| S3Storage.AllKeyedIffDated | AmazonKinesisProducer/AmazonKinesisClient/AmazonS3DataStorage.cs:149-151 | every record has a key exactly when every record's date can be read |
| Grouping.GroupBy | AmazonKinesisProducer/AmazonKinesisClient/AmazonS3DataStorage.cs:146-166 | the one-pass fill succeeds exactly when every key can be computed, and then yields the keys in first-appearance order with, under each key, the items bearing it |
| Grouping.AddToGroup | AmazonKinesisProducer/AmazonKinesisClient/AmazonS3DataStorage.cs:152-162 | appending to an existing list, or creating a new one-item list under a new key, keeps the dictionary in step with the items seen |
| Grouping.SelectMembers | AmazonKinesisProducer/AmazonKinesisClient/AmazonS3DataStorage.cs:146-166 | a group holds exactly the items whose key is the group's key |
| Grouping.SelectEmpty | AmazonKinesisProducer/AmazonKinesisClient/AmazonS3DataStorage.cs:146-166 | a group is empty exactly when no item has its key |
| Grouping.SelectAppend | AmazonKinesisProducer/AmazonKinesisClient/AmazonS3DataStorage.cs:155 | groups keep arrival order: the group of a concatenation is the first part's group followed by the second's |
| Grouping.DistinctKeysSpec | AmazonKinesisProducer/AmazonKinesisClient/AmazonS3DataStorage.cs:152-162 | the dictionary's keys are distinct and are exactly the keys of the items |
| Grouping.GroupsNonEmpty | AmazonKinesisProducer/AmazonKinesisClient/AmazonS3DataStorage.cs:159-161 | no group is empty |
| Grouping.GroupSizesSum | AmazonKinesisProducer/AmazonKinesisClient/AmazonS3DataStorage.cs:146-166 | the group sizes add up to the number of items: each item is in exactly one group |
| S3Storage.GroupRecordsPerCustomerAndDate | AmazonKinesisProducer/AmazonKinesisClient/AmazonS3DataStorage.cs:146-166 | grouping throws (None) exactly when some record's date cannot be read; otherwise it is the dictionary of the records by customer and minute |
| S3Storage.BuildRawDataFileContent | AmazonKinesisProducer/AmazonKinesisClient/AmazonS3DataStorage.cs:111-124 | the indexed loop yields the records' lines joined by the newline |
| S3Storage.EmptyContent | AmazonKinesisProducer/AmazonKinesisClient/AmazonS3DataStorage.cs:111-124 | no records give empty content |
| S3Storage.ContentLineFeeds | AmazonKinesisProducer/AmazonKinesisClient/AmazonS3DataStorage.cs:118-121 | with no line feed inside a line, the content holds one line feed fewer than it has records: none trails |
| S3Storage.NormalizedFileKey | AmazonKinesisProducer/AmazonKinesisClient/AmazonS3DataStorage.cs:44-47 | the key ends in ".txt"; a key ending in ".txt" is kept and any other gets ".txt" appended |
| S3Storage.NormalizedFileKeyIdempotent | AmazonKinesisProducer/AmazonKinesisClient/AmazonS3DataStorage.cs:44-47 | normalising a key twice is normalising it once |
| S3Storage.GroupFileKey | AmazonKinesisProducer/AmazonKinesisClient/AmazonS3DataStorage.cs:44-47 | a group key ends in a minute digit, so its object is named key + ".txt" |
| ObjectStore.HasCommonPrefix | AmazonKinesisProducer/AmazonKinesisClient/AmazonS3DataStorage.cs:55-61 | whether a listing of the folder with delimiter "/" returns a common prefix: some object lies strictly below the folder; `S3Client.ListObjects`, `FolderListedAfterSave` and `SecondSaveWritesNoMarker` state how saves change it |
| ObjectStore.AfterList | AmazonKinesisProducer/AmazonKinesisClient/AmazonS3DataStorage.cs:55-59 | a listing is logged and changes no object |
| ObjectStore.AfterPut | AmazonKinesisProducer/AmazonKinesisClient/AmazonS3DataStorage.cs:94-99 | a put is logged; it stores the body at bucket/key unless it fails, in which case no object changes |
| ObjectStore.S3Client.ListObjects | AmazonKinesisProducer/AmazonKinesisClient/AmazonS3DataStorage.cs:55-60 | the listing either fails or reports whether the prefix has a common prefix under delimiter "/" |
| ObjectStore.S3Client.PutObject | AmazonKinesisProducer/AmazonKinesisClient/AmazonS3DataStorage.cs:67-73 | the put reports success exactly when it did not fail |
| S3Storage.GroupLogShape | AmazonKinesisProducer/AmazonKinesisClient/AmazonS3DataStorage.cs:55-75 | a group's requests are its folder's listing and then only writes, at most three in all, and no object is removed |
| S3Storage.GroupRequests | AmazonKinesisProducer/AmazonKinesisClient/AmazonS3DataStorage.cs:55-75 | the zero-byte marker "folder/" is written exactly when the listing succeeded and found no folder; the content is written exactly when the listing succeeded and the folder was listed or the marker write succeeded |
| S3Storage.GroupWritten | AmazonKinesisProducer/AmazonKinesisClient/AmazonS3DataStorage.cs:55-99 | when every request succeeds, the content is stored at top/folder/key.txt and the folder is listed afterwards |
| S3Storage.SaveInS3Spec | AmazonKinesisProducer/AmazonKinesisClient/AmazonS3DataStorage.cs:42-85 | the requests and store after saving one group; `GroupRequests`, `GroupLogShape` and `GroupWritten` state them |
| S3Storage.FolderListedAfterSave | AmazonKinesisProducer/AmazonKinesisClient/AmazonS3DataStorage.cs:61-74 | once the listing and the first write succeed, the folder exists |
| S3Storage.SecondSaveWritesNoMarker | AmazonKinesisProducer/AmazonKinesisClient/AmazonS3DataStorage.cs:61-75 | a second save into a folder that the first save listed or created writes no marker |
| S3Storage.SaveSpecDated | AmazonKinesisProducer/AmazonKinesisClient/AmazonS3DataStorage.cs:25-32 | with every date readable, the groups are saved one after the other in dictionary order |
| S3Storage.SaveGroupsSpec | AmazonKinesisProducer/AmazonKinesisClient/AmazonS3DataStorage.cs:26-39 | the store after saving the groups of the given keys one after the other, each through `SaveInS3Spec`; `SaveSpecDated` ties it to `Save` and `EveryGroupAttempted` states that every group is attempted whatever fails |
| S3Storage.SaveNothing | AmazonKinesisProducer/AmazonKinesisClient/AmazonS3DataStorage.cs:23-40 | saving no records makes no request |
| S3Storage.EveryGroupAttempted | AmazonKinesisProducer/AmazonKinesisClient/AmazonS3DataStorage.cs:26-39 | whatever fails, the folder of every group is listed, one listing per group in dictionary order, and no object is removed: failures are contained per group |
| S3Storage.SaveSpec | AmazonKinesisProducer/AmazonKinesisClient/AmazonS3DataStorage.cs:23-40 | the store after `Save`; `SaveSpecDated`, `SaveNothing` and `EveryGroupAttempted` state what it does |
| S3Writer.AmazonS3DataStorage.Create | AmazonKinesisProducer/AmazonKinesisClient/AmazonS3DataStorage.cs:17-21 | a null or empty bucket name is refused; any other name gives a storage with that bucket |
| S3Writer.AmazonS3DataStorage.constructor | AmazonKinesisProducer/AmazonKinesisClient/AmazonS3DataStorage.cs:17-21 | the storage keeps the bucket name |
| S3Writer.AmazonS3DataStorage.Save | AmazonKinesisProducer/AmazonKinesisClient/AmazonS3DataStorage.cs:23-40 | `Save` throws exactly when a date cannot be read; the store ends as the specification of a save of these records says |
| S3Writer.AmazonS3DataStorage.SaveGroups | AmazonKinesisProducer/AmazonKinesisClient/AmazonS3DataStorage.cs:26-39 | the loop over the keys saves each group in turn |
| S3Writer.AmazonS3DataStorage.SaveInS3 | AmazonKinesisProducer/AmazonKinesisClient/AmazonS3DataStorage.cs:42-85 | the key is normalised, the folder is named after the first record and listed, the marker is created when absent and the content written; a failed request ends the group's work |
| S3Writer.AmazonS3DataStorage.SaveWebTransactionsInFolder | AmazonKinesisProducer/AmazonKinesisClient/AmazonS3DataStorage.cs:87-109 | one put of the rendered content into bucket top/folder; a failure changes nothing and is swallowed |
| FileStorage.AfterAppend | AmazonKinesisProducer/AmazonKinesisClient/FileBasedDataStorage.cs:32-35 | an append attempt counts as one; a failing attempt changes no file; otherwise the file, created when missing, ends with the text and no other file changes |
| FileStorage.FileSystem.AppendText | AmazonKinesisProducer/AmazonKinesisClient/FileBasedDataStorage.cs:32-35 | the new state is the attempt's, and it reports success exactly when the attempt does not throw |
| FileStorage.FileText | AmazonKinesisProducer/AmazonKinesisClient/FileBasedDataStorage.cs:26-30 | the text one save appends: each record's line followed by a newline; `FileTextEmpty`, `FileTextAppend`, `FileTextLength` and `FileTextLineFeeds` state its shape |
| FileStorage.BuildFileText | AmazonKinesisProducer/AmazonKinesisClient/FileBasedDataStorage.cs:26-30 | the `StringBuilder` loop yields each record's line followed by a newline, and throws exactly when a date cannot be read |
| FileStorage.FileTextEmpty | AmazonKinesisProducer/AmazonKinesisClient/FileBasedDataStorage.cs:26-30 | no records append nothing |
| FileStorage.FileTextAppend | AmazonKinesisProducer/AmazonKinesisClient/FileBasedDataStorage.cs:26-30 | saving two batches in turn appends what saving their concatenation appends |
| FileStorage.FileTextLength | AmazonKinesisProducer/AmazonKinesisClient/FileBasedDataStorage.cs:29 | the text is the lines plus two characters of newline per record |
| FileStorage.FileTextLineFeeds | AmazonKinesisProducer/AmazonKinesisClient/FileBasedDataStorage.cs:29 | with no line feed inside a line, the text holds exactly one line feed per record, the last one included |
| FileStorage.FileTextIsContentPlusNewLine | AmazonKinesisProducer/AmazonKinesisClient/FileBasedDataStorage.cs:29 | for a non-empty batch, the file text is the S3 content of the same records plus one final newline |
| FileStorage.FileSaveSpec | AmazonKinesisProducer/AmazonKinesisClient/FileBasedDataStorage.cs:24-36 | the file system after one `Save`: one append attempt of the batch's text, or no change where rendering a record throws; `FileSaveAppendsOnly` states that it only appends |
| FileStorage.FileSaveAppendsOnly | AmazonKinesisProducer/AmazonKinesisClient/FileBasedDataStorage.cs:24-36 | whether or not the write throws, the file's old text stays a prefix of its new text, no other file changes, and an empty batch changes nothing |
| FileStorage.FileBasedDataStorage.Create | AmazonKinesisProducer/AmazonKinesisClient/FileBasedDataStorage.cs:14-22 | a null or empty path gives the null-argument error; a path `FileInfo` rejects gives its exception; a path whose full name holds no file gives the "does not exist" error quoting the path as given; otherwise a storage on that full name, so two spellings of one file open the same file |
| FileStorage.FileBasedDataStorage.constructor | AmazonKinesisProducer/AmazonKinesisClient/FileBasedDataStorage.cs:14-22 | the storage keeps the path |
| FileStorage.FileBasedDataStorage.Save | AmazonKinesisProducer/AmazonKinesisClient/FileBasedDataStorage.cs:24-36 | `Save` succeeds exactly when every date can be read and the write does not throw; the file system is then as one append of the batch's text leaves it, and a throwing rendering writes nothing; the old text stays a prefix and no other file changes |
| Consumer.HasIterator | AmazonKinesisProducer/AmazonKinesisClient/Program.cs:48 | the `while` test: the iterator is neither null nor empty; `ShardFetchesChain` states that the chain stops exactly when it fails |
| Consumer.ShardFetches | AmazonKinesisProducer/AmazonKinesisClient/Program.cs:46-58 | the chain of requests on one shard; `ShardFetchesChain` states how each request follows the last |
| Consumer.ShardFetchesAfterIs | AmazonKinesisProducer/AmazonKinesisClient/Program.cs:48-119 | the loop's accumulation of fetches equals the recursive description of the shard's fetches |
| Consumer.ShardFetchesChain | AmazonKinesisProducer/AmazonKinesisClient/Program.cs:48-119 | a shard's first request uses its starting iterator; each request asks for 1000 records at a non-empty iterator; each continues at the previous response's NextShardIterator; the shard ends when that is null or empty |
| Consumer.StreamFetchLimits | AmazonKinesisProducer/AmazonKinesisClient/Program.cs:51 | every request of the run asks for 1000 records |
| Consumer.StreamFetches | AmazonKinesisProducer/AmazonKinesisClient/Program.cs:38-46 | the shards' chains laid end to end, each from the shard's TRIM_HORIZON iterator; `StreamFetchLimits` and `ReadFromStream` state what it holds |
| Consumer.Classify | AmazonKinesisProducer/AmazonKinesisClient/Program.cs:64-101 | the verdict on one payload; `AcceptedIff` states when it accepts |
| Consumer.AcceptedIff | AmazonKinesisProducer/AmazonKinesisClient/Program.cs:64-76 | a payload is accepted exactly when it parses as JSON, decodes to a record, and that record has a method and a URL and passes all three rules |
| Consumer.AcceptedBy | AmazonKinesisProducer/AmazonKinesisClient/Program.cs:61-102 | the accepted records of a run of payloads; `AcceptedBySound`, `AcceptedByComplete`, `AcceptedByLength` and `AcceptedByAppend` state that it keeps exactly the accepted payloads, in order |
| Consumer.AcceptedByAppend | AmazonKinesisProducer/AmazonKinesisClient/Program.cs:62-102 | payloads are judged one by one: the accepted records of a concatenation are those of each part, in order |
| Consumer.AcceptedBySound | AmazonKinesisProducer/AmazonKinesisClient/Program.cs:62-102 | every forwarded record comes from a payload judged accepted |
| Consumer.AcceptedByComplete | AmazonKinesisProducer/AmazonKinesisClient/Program.cs:62-102 | every payload judged accepted is forwarded, whatever happens to the others |
| Consumer.AcceptedByLength | AmazonKinesisProducer/AmazonKinesisClient/Program.cs:62-102 | at most one record per payload is forwarded |
| Consumer.AcceptedAreValid | AmazonKinesisProducer/AmazonKinesisClient/Program.cs:64-76 | every forwarded record was decoded from one of the payloads and has a permitted method, a response time within bounds and a URL that resolves |
| Consumer.Judge | AmazonKinesisProducer/AmazonKinesisClient/Program.cs:64-101 | the verdict function gives the classification of every payload |
| Consumer.CollectAccepted | AmazonKinesisProducer/AmazonKinesisClient/Program.cs:61-102 | the inner loop collects exactly the accepted records, in arrival order |
| Consumer.BatchOf | AmazonKinesisProducer/AmazonKinesisClient/Program.cs:58-108 | the batch a fetch hands to `Save`: its accepted records when the response has records and some are accepted, else none; `BatchesSpec` and `ProcessFetch` state it |
| Consumer.BatchesSpec | AmazonKinesisProducer/AmazonKinesisClient/Program.cs:58-108 | the saved batches, laid end to end, are all accepted records of all fetches in order; no batch is empty; there is at most one batch per fetch |
| Consumer.BatchesAppend | AmazonKinesisProducer/AmazonKinesisClient/Program.cs:48-119 | the batches of consecutive runs of fetches are laid end to end |
| Consumer.SavedAllAppend | AmazonKinesisProducer/AmazonKinesisClient/Program.cs:104-115 | saving two runs of batches in turn is saving their concatenation |
| Consumer.SaveTo | AmazonKinesisProducer/AmazonKinesisClient/Program.cs:104-115 | one save through either back end, a failure caught, leaves the storage as that back end's save of the batch |
| Consumer.ProcessFetch | AmazonKinesisProducer/AmazonKinesisClient/Program.cs:58-116 | a fetch calls `Save` once with its accepted records when it has any, and not at all otherwise |
| Consumer.SaveFetch | AmazonKinesisProducer/AmazonKinesisClient/Program.cs:58-116 | processing one more fetch appends its batch to those already saved |
| Consumer.FetchAndSave | AmazonKinesisProducer/AmazonKinesisClient/Program.cs:50-116 | one pass asks for 1000 records at the current iterator and saves the accepted records of the answer |
| Consumer.DrainShard | AmazonKinesisProducer/AmazonKinesisClient/Program.cs:48-119 | the while loop makes exactly the shard's chain of fetches, and the storage ends as the saves of their batches in order |
| Consumer.ReadShard | AmazonKinesisProducer/AmazonKinesisClient/Program.cs:40-119 | a shard is drained from its TRIM_HORIZON iterator, and its batches follow those of the shards before it |
| Consumer.ReadFromStream | AmazonKinesisProducer/AmazonKinesisClient/Program.cs:24-121 | the shards are drained in listed order, each from TRIM_HORIZON, and the storage ends as the saves of every non-empty accepted batch in fetch order |

## Left out

- Console output, `Main` and `Console.ReadKey` are not modelled. Nothing the program computes depends on them.
- Client construction and configuration (`GetAmazonS3Client`, `AmazonKinesisConfig`, `ConfigurationManager`) are not modelled. The S3 client and the stream are given to the model.
- `DescribeStream` is not modelled. The shard ids it lists are a field of the stream value.
- Exceptions thrown by the Kinesis calls themselves are not modelled. The source does not catch them, so they end the run.
- Consumer.ShardFetches, Consumer.DrainShard, Consumer.ReadShard and Consumer.ReadFromStream: the per-shard `while` loop is unbounded in the source. The model adds a budget of fetches per shard, and a shard whose continuation never ends is cut at that budget. Both are parameters.
- UTF-8 decoding, `JContainer.Parse` and `DeserializeObject<WebTransaction>` are not modelled. Payloads arrive as text. The two JSON steps are given functions, and `None` stands for "throws".
- `Uri.TryCreate`, `DnsSafeHost` and `Dns.GetHostAddresses` are not modelled. They are given functions of the URL services value: a host or nothing, and an address count or a resolver error. DNS is network state.
- `DateTime.ToString()` in the current culture (the sixth rendered field) is not modelled. It is a given function of the date.
- Text.IntToString and CivilTime.MinuteStamp: the culture is assumed to use the ASCII '-' as its negative sign and the Gregorian calendar, as the invariant culture does. Under another culture `Int32.ToString()`/`Int64.ToString()` may print another sign, and `ToString("yyyy-MM-dd-HH-mm")` may print another calendar's year (a Buddhist year under th-TH), which changes the rendered lines and the group keys.
- `string.ToLower` is modelled as ASCII lower-casing.
- `Environment.NewLine` is the constant "\r\n".
- The conversion from epoch milliseconds to a calendar date uses a reference algorithm: a year search and a month table, proved to be the inverse of the date-to-milliseconds count. .NET's own algorithm is not in the repository.
- `IRawDataStorage` is modelled as a choice between the two storage classes, and `ReadFromStream` dispatches on it. The interface has no behaviour of its own.
- S3 semantics beyond put and prefix listing are not modelled. That includes whether a bucket name of the form "top/folder" is legal. An object put into bucket "top/folder" under key k lives at path "top/folder/k".
- FileStorage.FileBasedDataStorage.Create: how `FileInfo` resolves a path against the working directory, and which paths its constructor rejects, are a given function of the file system, not computed from the path. Files are keyed by full name.
- FileStorage.FileSystem.AppendText: which appends throw is decided by an oracle indexed by the number of appends so far. A failed append writes nothing; a partial write before the exception is not modelled.
- Which S3 requests fail is decided by an oracle indexed by the request's position in the client's log. The model does not distinguish AmazonS3Exception from other exceptions, because every failure of a group's requests is caught inside `Save`.
- The producer program (`AmazonKinesisProducer/AmazonKinesisProducer/Program.cs`) and its record class are not part of this model.
- Dictionary enumeration order is modelled as insertion order. That holds for the .NET `Dictionary` when nothing is removed, which is the case here.
- Integer widths: `ResponseTimeMs` is a 32-bit integer and `UtcDateUnixMs` a 64-bit one. Both are newtypes with those ranges. No arithmetic on them can overflow, so no wrap-around is modelled.
