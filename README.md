# An ORM-style query shim over a filter-chaining store, and SMS phone utilities

The backend reaches its hosted relational store only through a REST-style
query builder (`from(table).select(...).eq(...).order(...).range(...)`). To
keep its handlers written against an ORM-like interface, it carries a
compatibility shim. The shim has one object per collection (User, OTP, Device,
Tracking, SharedDevice) and one operation per ORM verb (`findUnique`,
`findFirst`, `findMany`, `create`, `createMany`, `update`, `updateMany`,
`delete`, `deleteMany`, `count`). Each operation reads a query descriptor
(`where`, `select`, `include`, `orderBy`, `take`, `skip`, `data`), builds a
chain of builder calls, awaits it, and turns the store's
`{ data, count, error }` reply into a row, `null`, a list, `{ count }` or a
thrown error.

The shim exists twice. One copy is the injectable `PrismaService`; the other
is the `prisma` object exported for the serverless handlers. The two agree on
most operations but differ in a few, which the model states exactly.

The SMS service contributes three things:
- the check that its required configuration is present;
- an Indian mobile-number validator;
- a formatter that strips a `91` country code.

## How the model is built

- `Values`: JavaScript values and truthiness (`undefined`, `null`, `false`, `0`
  and `""` are falsy), objects as ordered property lists, stored rows as maps.
- `Builder`: the chain of builder calls as a `seq<Op>`, together with the
  shim's rules for building its pieces:
  - the projection `Object.keys(select).filter(k => select[k]).join(',')`;
  - the conditional filters (`if (v)`, `if (v !== undefined)`, `if (v === null)`);
  - the order rule on the first `orderBy` key;
  - the pagination calls `limit(take)` and `range(skip, skip + (take || 100) - 1)`.
- `Store`: a model of the remote store that gives a chain its meaning over
  in-memory collections:
  - filters combine by conjunction, and `= NULL` is never true;
  - `order` sorts stably on its field; ties and unordered reads keep the
    stored order, which the real store leaves unspecified;
  - `limit` and `range` window the result, and a later call overrides an earlier one;
  - `.single()` yields the one produced row, or else the error `PGRST116`;
  - `insert`, `update` and `delete` change the collection.
- `Normalise`: the reply normalisers (`ReadOne`, `WriteOne`, `FirstOrNull`,
  `ListOrEmpty`, `CountOf`, `CountOrZero`, `Acknowledge`), each with lemmas
  that say what it returns for the store model's reply: the row, `null`, the
  page, or the count of admitted rows.
- `Shim`: the operations that are identical in both copies. Every translator
  is a method that builds the chain by reassigning it step by step, as the
  source does. Each one ensures three things:
  - the exact chain it sends;
  - an if-and-only-if between the rows the chain admits and a declarative
    predicate over the descriptor;
  - that its result is the normaliser applied to the store's reply. The
    awaited request is the parameter `store`.
- `PrismaService` and `PrismaClient`: the operations in which the two copies
  differ.
- `Copies`: lemmas that compare the two copies.
- `Sms`: cleaning, validation, formatting and `validateConfig`.
- `Scenarios`: call sequences of the shim's handlers run against the store
  model:
  - the one-time-password login flow, where a code is found once and then no
    longer;
  - a SharedDevice lookup given only half of its composite key.

## Model

| member | source | states |
|---|---|---|
| `Builder.KeepTruthy` | src/prisma/prisma.service.ts:28-30 | a key survives the `select` filter exactly when it is one of the keys and its value in `select` is truthy |
| `Builder.KeepTruthyAppend` | src/prisma/prisma.service.ts:46-49 | the filter works key by key, so the surviving keys keep the order of `Object.keys` |
| `Builder.ColumnsRoundTrip` | src/prisma/prisma.service.ts:292-294 | when at least one key survives and none holds a comma, splitting the projection string at `','` gives back exactly the surviving keys, in key order |
| `Builder.SplitJoin` | src/prisma/prisma.service.ts:29 | `join(',')` is undone by `split(',')` for parts without the separator |
| `Builder.WithEmbed` | src/prisma/prisma.service.ts:191 | the embed clause goes after the existing column list: the list is kept as a prefix, then `', '`, then the embed |
| `Store.SortRows` | src/prisma/prisma.service.ts:60 | the order directive returns a sorted permutation of the rows |
| `Store.PaginateWindow` | src/prisma/prisma.service.ts:313-314 | after a chain without window calls, the pagination calls request offset `skip` and `take` rows (100 when `take` is falsy) when `skip` is truthy, the first `take` rows when only `take` is, and every row otherwise; `range` overrides the earlier `limit` |
| `Store.EqUndefinedAdmitsNothing` | src/prisma/prisma.service.ts:363-364 | a chain holding `eq(column, undefined)` admits no stored row |
| `Store.AdmitsEqWhen` | src/prisma/prisma.service.ts:33-38 | the truthy-guarded `eq` admits a row exactly when the value is falsy or the row carries it |
| `Store.AdmitsEqUnlessUndefined` | src/prisma/prisma.service.ts:124-126 | the `!== undefined`-guarded `eq` filters on `false` too and lets `null` match nothing |
| `Store.AdmitsInWhen` | src/prisma/prisma.service.ts:53-55 | the role filter admits exactly the rows whose role is in the given list, when one is given |
| `Store.AdmitsIsNullWhen` | src/prisma/prisma.service.ts:268-270 | `is(column, null)` is emitted only for an explicit `null` and then admits exactly the rows without a value |
| `Store.AdmitsBounds` | src/prisma/prisma.service.ts:300-305 | each date bound, when present, admits exactly the rows whose instant lies on the right side of it (strictly for `gt`/`lt`, inclusively for `gte`/`lte`) |
| `Store.AdmitsOrderBy` | src/prisma/prisma.service.ts:57-61 | the order directive filters no row |
| `Normalise.ReadOne` | src/prisma/prisma.service.ts:40-42 | a single-row lookup throws exactly when the error is present with a code other than `PGRST116`, and otherwise returns `data` |
| `Normalise.WriteOne` | src/prisma/prisma.service.ts:88-90 | a single-row mutation throws exactly when any error is present, the sentinel included, and otherwise returns `data` |
| `Normalise.FirstOrNull` | src/prisma/prisma.service.ts:139-141 | `findFirst` throws any error; otherwise it returns `null` exactly when there are no rows, and else the first row |
| `Normalise.ListOrEmpty` | src/prisma/prisma.service.ts:63-65 | `findMany` throws any error; otherwise it returns the rows, or `[]` when there are none |
| `Normalise.CountOf` | src/prisma/prisma.service.ts:165-167 | bulk mutations throw any error; otherwise they return the number of returned rows, `0` when `data` is null |
| `Normalise.CountOrZero` | src/prisma/prisma.service.ts:334-336 | `count` throws any error; otherwise it returns the count, or `0` when it is missing |
| `Normalise.Acknowledge` | src/prisma/prisma.service.ts:98-99 | `delete` throws any error; otherwise it returns the key it was given, whatever rows the reply holds |
| `Normalise.LookupOutcome` | src/prisma/prisma.service.ts:40-42 | a `.single()` lookup never throws on zero matches: it yields the row when exactly one row matches and `null` otherwise |
| `Normalise.UpdateOneOutcome` | src/prisma/prisma.service.ts:78-91 | `update().select().single()` with exactly one match returns that row patched and patches it in the collection; with none or several it throws `PGRST116` and the collection is unchanged |
| `Normalise.CreateOutcome` | src/prisma/prisma.service.ts:68-76 | `create` returns the inserted row and appends it to the collection |
| `Normalise.DeleteOutcome` | src/prisma/prisma.service.ts:170-180 | after a delete the collection holds exactly the rows the filters do not admit |
| `Normalise.FirstIsExtreme` | src/prisma/prisma.service.ts:131-137 | under an order directive the first row is one of the matches, and its key is minimal in the requested direction |
| `Normalise.FirstOutcome` | src/prisma/prisma.service.ts:137-141 | `limit(1)` followed by taking the first row of `data`, or `null`, returns `null` exactly when nothing matches, and otherwise the first of the ordered matches (ties and unordered reads in the model's stored order) |
| `Normalise.CountAffected` | src/prisma/prisma.service.ts:155-168 | `updateMany` and `deleteMany` return the number of admitted rows; no match gives `{count: 0}`, not an error |
| `Normalise.CountInserted` | src/prisma/prisma.service.ts:238-245 | `createMany` returns the number of rows it inserted |
| `Normalise.CountHead` | src/prisma/prisma.service.ts:321-337 | Tracking `count` returns the number of admitted rows |
| `Normalise.PagedList` | src/prisma/prisma.service.ts:313-318 | a paginated `findMany` returns the page `PageWindow(take, skip)` of the ordered matches (ties and unordered reads in the model's stored order) |
| `Normalise.PaginationExamples` | src/prisma/prisma.service.ts:314 | take 10 with skip 20 gives rows 20..29; skip 20 alone gives rows 20..119; take 10 alone gives the first 10 rows |
| `Normalise.OrderedByFirst` | src/prisma/prisma.service.ts:307-311 | the first order call decides the order of the result, whatever calls follow it |
| `Normalise.OrderByRule` | src/prisma/prisma.service.ts:57-61 | the returned list is sorted on the first `orderBy` key, descending exactly when its value is `'desc'` |
| `Shim.UserFindUnique` | src/prisma/prisma.service.ts:27-43 | User.findUnique (the same at src/shared/prisma-client.ts:11-23) sends the projection, an `eq` on each truthy key in source order, and `.single()`; a row is admitted iff it agrees with every truthy key; the result is `ReadOne` of the reply |
| `Shim.SelectStep` | src/prisma/prisma.service.ts:46-49 | the step-by-step projection (`'*'`, and the filtered keys when `select` is given) is the projection rule |
| `Shim.OrderStep` | src/prisma/prisma.service.ts:57-61 | only the first `orderBy` key is honoured, ascending unless its value is `'desc'` (the same as `!== 'desc'` at src/shared/prisma-client.ts:33-36) |
| `Shim.UserFindMany` | src/prisma/prisma.service.ts:45-66 | User.findMany admits exactly the rows whose role is in `where.role.in`, when given; it is ordered by the order rule, and a missing list becomes `[]` |
| `Shim.Create` | src/prisma/prisma.service.ts:68-76 | `create` of every model inserts the one row and reads it back with `.select().single()`; any error is thrown |
| `Shim.UserUpdate` | src/prisma/prisma.service.ts:78-91 | User.update admits iff a row agrees with every truthy key, and throws any error, the sentinel included |
| `Shim.UserDelete` | src/prisma/prisma.service.ts:93-100 | User.delete always sends `eq('id', id)` and returns `{ id }` rather than the deleted row |
| `Shim.AdmitsOtpFilters` | src/prisma/prisma.service.ts:118-129 | the OTP filters admit iff the row matches the truthy phone number and code, matches `isUsed` unless it is undefined, and has not expired before the bound |
| `Shim.OtpFilterSteps` | src/prisma/prisma.service.ts:118-129 | the four guarded filter steps build exactly the OTP filters, in source order |
| `Shim.OtpFindFirst` | src/prisma/prisma.service.ts:115-142 | OTP.findFirst sends the OTP filters, the order, then `limit(1)`; it admits iff `OtpAdmits`, and returns the first row or `null` |
| `Shim.OtpUpdate` | src/prisma/prisma.service.ts:144-153 | OTP.update always filters on `id` and returns the single updated row; any error is thrown |
| `Shim.OtpUpdateMany` | src/prisma/prisma.service.ts:155-168 | OTP.updateMany admits iff the row matches the truthy phone number and, unless undefined, `isUsed`; it returns `{ count }` |
| `Shim.DeviceFindMany` | src/prisma/prisma.service.ts:211-226 | Device.findMany embeds the assignee when `include.user` is truthy and admits iff the row agrees with a truthy `assignedTo`; `select` is not read |
| `Shim.DeviceCreateMany` | src/prisma/prisma.service.ts:238-245 | Device.createMany inserts the rows, reads them back and returns their count |
| `Shim.DeviceUpdate` | src/prisma/prisma.service.ts:247-260 | Device.update admits iff the row agrees with a truthy id and a truthy code, and returns the single updated row |
| `Shim.DeviceUpdateMany` | src/prisma/prisma.service.ts:262-275 | Device.updateMany filters on a truthy code, and on an empty assignee only when `assignedTo === null` (also src/shared/prisma-client.ts:176-184) |
| `Shim.AdmitsTrackingFilters` | src/prisma/prisma.service.ts:297-305 | the Tracking filters admit iff the row matches a truthy device code and lies within the inclusive time window |
| `Shim.TrackingFilterSteps` | src/prisma/prisma.service.ts:297-305 | the guarded steps build exactly the Tracking filters, in source order |
| `Shim.TrackingFindMany` | src/prisma/prisma.service.ts:290-319 | Tracking.findMany sends filters, order and the pagination calls, in that order, and admits iff `TrackingAdmits` |
| `Shim.TrackingCount` | src/prisma/prisma.service.ts:321-337 | Tracking.count sends a head count request with the same filters and returns the count, or `0` when it is missing |
| `Shim.SharedDeviceFindFirst` | src/prisma/prisma.service.ts:342-357 | SharedDevice.findFirst admits iff the row agrees with a truthy device id and user id, and returns the first row or `null` |
| `Shim.AdmitsKeyFilters` | src/prisma/prisma.service.ts:363-364 | the composite-key filters always send both halves, `deviceId` first, and admit iff the row carries both |
| `Shim.AdmitsSharedDeviceFilters` | src/prisma/prisma.service.ts:386-391 | the findMany filters admit iff the row agrees with a truthy user id and a truthy device id |
| `Shim.SharedDeviceFilterSteps` | src/prisma/prisma.service.ts:386-391 | the guarded steps build the user-id filter, then the device-id filter |
| `PrismaService.AdmitsPurgeChain` | src/prisma/prisma.service.ts:170-176 | the service's OTP.deleteMany admits iff the row expires before the bound; with no bound, every row |
| `PrismaService.OtpDeleteMany` | src/prisma/prisma.service.ts:170-180 | OTP.deleteMany reads only `where.expiresAt.lt` and returns the number of deleted rows |
| `PrismaService.AdmitsDeviceLookupChain` | src/prisma/prisma.service.ts:196-204 | Device.findUnique admits iff the row agrees with a truthy id, code and SIM number |
| `PrismaService.DeviceFilterSteps` | src/prisma/prisma.service.ts:196-204 | the three guarded steps build the id, code and SIM-number filters, in that order |
| `PrismaService.DeviceProjection` | src/prisma/prisma.service.ts:186-192 | the `=== '*'` ternary equals appending `', user:User(id, name)'` after the selected fields, so the wildcard case yields `'*, user:User(id, name)'` |
| `PrismaService.DeviceFindUnique` | src/prisma/prisma.service.ts:185-209 | Device.findUnique sends the embed projection, an `eq` per truthy key and `.single()`; it never throws on zero matches |
| `PrismaService.SharedDeviceFindUnique` | src/prisma/prisma.service.ts:359-368 | SharedDevice.findUnique always sends both composite-key halves, `deviceId` first, admits iff the row carries both, and returns the row or `null` |
| `PrismaService.EmbedNamesDevice` | src/prisma/prisma.service.ts:372-376 | both device projections contain `'device'`, starting right after the leading `'*, '` |
| `PrismaService.SharerEmbedAppended` | src/prisma/prisma.service.ts:378-382 | `include.user` keeps the projection chosen for `include.device` and appends the sharer embed after it; a requested device embed is always present |
| `PrismaService.SharedDeviceProjection` | src/prisma/prisma.service.ts:371-382 | the `includes('device')` branch builds the embed rule: the sharer embed follows the device embed when there is one, and follows `'*'` otherwise |
| `PrismaService.SharedDeviceFindMany` | src/prisma/prisma.service.ts:370-396 | SharedDevice.findMany sends that projection and the user and device filters, and a missing list becomes `[]` |
| `PrismaService.DeleteAck` | src/prisma/prisma.service.ts:415 | the service's delete returns a new object with exactly the keys `deviceId` and `userId`, taken from the composite key |
| `PrismaService.SharedDeviceDelete` | src/prisma/prisma.service.ts:408-416 | SharedDevice.delete filters on both halves, after which `{ deviceId, userId }` is returned |
| `PrismaClient.AdmitsPurgeChain` | src/shared/prisma-client.ts:108-112 | the client's OTP.deleteMany admits iff all three hold: the row matches a truthy phone number, matches `isUsed` unless undefined, and expires before the bound |
| `PrismaClient.OtpDeleteMany` | src/shared/prisma-client.ts:108-117 | the client's OTP.deleteMany sends those three guarded filters and returns the number of deleted rows |
| `PrismaClient.AdmitsDeviceLookupChain` | src/shared/prisma-client.ts:132-133 | the client's Device.findUnique admits iff the row agrees with a truthy id and code |
| `PrismaClient.DeviceFilterSteps` | src/shared/prisma-client.ts:132-133 | the two guarded steps build the id and code filters, in that order |
| `PrismaClient.DeviceProjection` | src/shared/prisma-client.ts:123-129 | the ternary equals appending `', user:User!assignedTo(id, name, phoneNumber)'` after the selected fields or after `'*'` |
| `PrismaClient.DeviceFindUnique` | src/shared/prisma-client.ts:122-138 | the client's Device.findUnique sends that projection, the id and code filters and `.single()`, and swallows only `PGRST116` |
| `PrismaClient.SharedDeviceProjection` | src/shared/prisma-client.ts:245-247 | `+=` appends the sharer embed to whatever projection is already held |
| `PrismaClient.SharedDeviceFindMany` | src/shared/prisma-client.ts:244-256 | the client's SharedDevice.findMany sends that projection and the user and device filters |
| `PrismaClient.SharedDeviceDelete` | src/shared/prisma-client.ts:264-272 | the client's SharedDevice.delete filters on both halves and returns the `deviceId_userId` object unchanged |
| `Copies.DeviceColumnsCompared` | src/shared/prisma-client.ts:127-128 | both copies keep the selected fields in front, and their Device.findUnique projections are equal iff `include.user` is falsy |
| `Copies.SharedDeviceColumnsCompared` | src/shared/prisma-client.ts:246-247 | the two SharedDevice.findMany projections are equal iff `include.device` and its nested `include.user` are not both set |
| `Copies.PurgeCompared` | src/shared/prisma-client.ts:108-117 | the client's OTP.deleteMany deletes and counts no more rows than the service's and keeps every row the service keeps; the two agree when no phone number is given and `isUsed` is undefined |
| `Copies.LookupCompared` | src/shared/prisma-client.ts:122-138 | the service's Device.findUnique matches a sub-multiset of the client's matches; with a falsy SIM number the two return the same outcome |
| `Copies.DeleteAckCompared` | src/shared/prisma-client.ts:271 | both copies return the same halves of the key; the service's object equals the client's iff the key is exactly `deviceId`, `userId` in that order |
| `Sms.Clean` | src/auth/sms.service.ts:76 | the cleaned number is no longer than the input and holds no white space, `-` or `+` |
| `Sms.CleanKeeps` | src/auth/sms.service.ts:76 | a character is in the cleaned number iff it is in the input and is not stripped |
| `Sms.CleanAppend` | src/auth/sms.service.ts:87 | cleaning works character by character: it distributes over concatenation |
| `Sms.CleanPlain` | src/auth/sms.service.ts:87 | a string with nothing to strip is left unchanged |
| `Sms.CleanIdempotent` | src/auth/sms.service.ts:87 | cleaning twice is cleaning once |
| `Sms.Digits` | src/auth/sms.service.ts:79 | `\d{n}$` holds iff exactly `n` characters remain and all are digits |
| `Sms.MatchesMobile` | src/auth/sms.service.ts:79 | the anchored `^[6-9]\d{9}$` holds iff the string is ten digits starting with 6 to 9 |
| `Sms.ValidatePhoneNumber` | src/auth/sms.service.ts:74-82 | a number is valid iff, after removing white space, `-` and `+`, it is ten digits starting with 6 to 9 |
| `Sms.FormatPhoneNumber` | src/auth/sms.service.ts:85-95 | the formatted number holds no white space, `-` or `+`, and is a suffix of the cleaned number |
| `Sms.Utf16Length` | src/auth/sms.service.ts:90 | `length` counts UTF-16 code units: between one and two per character, two for a character above U+FFFF |
| `Sms.Utf16LengthAppend` | src/auth/sms.service.ts:90 | code-unit lengths add up over concatenation |
| `Sms.Utf16LengthBasic` | src/auth/sms.service.ts:90 | a string with no character above U+FFFF has one code unit per character |
| `Sms.FormatDropsCountryCode` | src/auth/sms.service.ts:90-92 | a cleaned number that starts with `91` and is twelve code units long loses exactly that prefix, leaving ten code units |
| `Sms.FormatKeepsOthers` | src/auth/sms.service.ts:94 | any other number, by prefix or by code-unit length, is returned cleaned and otherwise unchanged |
| `Sms.FormatPrefixed` | src/auth/sms.service.ts:90-92 | `91` followed by ten code units with nothing to strip formats to those ten code units, whatever their character count |
| `Sms.EmojiTailPlain` | src/auth/sms.service.ts:87-90 | digits followed by a character above U+FFFF are kept by the cleaning, and the pair counts as two code units |
| `Sms.SurrogatePairExample` | src/auth/sms.service.ts:90-92 | `91`, eight digits and a character above U+FFFF (eleven characters, twelve code units) loses the prefix |
| `Sms.FormatIdempotent` | src/auth/sms.service.ts:87-94 | formatting twice is formatting once |
| `Sms.FormatValid` | src/auth/sms.service.ts:74-94 | a valid number is already formatted, and formatting keeps it valid |
| `Sms.FormatCountryCodeValid` | src/auth/sms.service.ts:90-92 | a mobile number written with the `91` prefix formats to a valid number |
| `Sms.CountryCodeExample` | src/auth/sms.service.ts:85-95 | `'+91 '` followed by a mobile number formats to the number itself; the number is valid and the prefixed form is not |
| `Sms.EnvOr` | src/auth/sms.service.ts:8-15 | `??` takes the fallback only for an unset variable; a set but empty variable stays empty |
| `Sms.UnsetEnvironment` | src/auth/sms.service.ts:8-15 | with no SMS variables set, the four required names are reported in order, and route and message type default to `'TA'` and `'1'` |
| `Sms.EmptyNamesExactly` | src/auth/sms.service.ts:22-26 | a name is reported iff one of its settings is empty |
| `Sms.RequiredInOrder` | src/auth/sms.service.ts:23-26 | the reported names are the four `if (!v) missing.push(name)` checks, in source order |
| `Sms.ValidateConfig` | src/auth/sms.service.ts:21-32 | the missing list holds the empty required names in order; the check throws the incompleteness error iff the list is non-empty, and then logs the names joined by `', '`; nothing is logged otherwise |
| `Sms.MissingExactly` | src/auth/sms.service.ts:13-26 | each required setting is reported iff it is empty; route and message type are never reported |
| `Scenarios.PendingRows` | src/prisma/prisma.service.ts:118-129 | the login lookup (this phone and code, unused, unexpired) admits a fresh OTP and rejects the used one |
| `Scenarios.FirstOfOne` | src/prisma/prisma.service.ts:137-141 | over a one-row collection, a first-row read returns that row iff the chain admits it, else `null` |
| `Scenarios.CreateAndFind` | src/prisma/prisma.service.ts:105-142 | a created OTP is returned by `create`, and then found by the pending lookup |
| `Scenarios.UseAndFindAgain` | src/prisma/prisma.service.ts:144-153 | marking the OTP used returns the used row, and the same lookup then returns `null` |
| `Scenarios.OtpUsedOnce` | src/prisma/prisma.service.ts:105-153 | a code is found once: create, find, mark used, and the next find gives `null` |
| `Scenarios.HalfKeyMatchesNothing` | src/prisma/prisma.service.ts:363-364 | a composite key missing its user half admits no stored share |
| `Scenarios.HalfKeyLookup` | src/prisma/prisma.service.ts:359-368 | under the store model, which lets `eq(column, undefined)` match no row, SharedDevice.findUnique with only the device half returns `null` |

## How the code builds its filters

- The filter fields are fixed per operation and are emitted in source order,
  whatever order the `where` object lists them in.
- Most filters are emitted only when their value is truthy. There are three
  kinds of exception:
  - `isUsed` is emitted unless it is `undefined`;
  - `assignedTo` becomes `is null`, and only for an explicit `null`;
  - some filters are sent whatever their value. These are `eq('id', …)` in
    User.delete (src/prisma/prisma.service.ts:97,
    src/shared/prisma-client.ts:60) and in OTP.update
    (src/prisma/prisma.service.ts:148, src/shared/prisma-client.ts:93). They
    are also both key halves in SharedDevice.findUnique
    (src/prisma/prisma.service.ts:363-364) and in SharedDevice.delete
    (src/prisma/prisma.service.ts:412-413, src/shared/prisma-client.ts:268-269).
- An explicit `null` becomes an `is null` filter only in Device.updateMany.
  Under a truthiness guard `null` is skipped. For `isUsed`, and for the
  unconditional filters above, it is sent as `eq(column, null)`, and an
  `undefined` one as `eq(column, undefined)`.
- SharedDevice.delete returns a fresh `{ deviceId, userId }` in the service and
  the caller's key object in the exported client.
- The SharedDevice `findUnique` operation exists only in the service.
- The shim checks no store-connection configuration. The only configuration
  check in the code is the SMS one.

## Left out

- Network I/O, `async`/`await` and the Supabase client construction. The
  awaited request is the parameter `store` of each operation. The `Store`
  module is a model of the remote store, not the store itself.
- `process.env` reads. The SMS configuration is built from an environment map
  (`Sms.ConfigFromEnv`). The store URL and key are not modelled.
- `Date.toISOString()`. Date bounds are instants (integers), and the store
  compares instants instead of ISO-8601 strings.
- `sendOTP`: an HTTP call, URL encoding and logging.
- The JavaScript regular-expression engine. `\s` is written out as the
  ECMAScript white-space set and `\d` as `'0'..'9'`.
- The `Logger` side effect of `validateConfig`. It is returned as the
  `logged` output, and the thrown error as the `thrown` output.
- src/app.controller.ts is not part of this model. It is clock-dependent health
  output with floating-point offsets. NestJS decorators, dependency injection
  and the empty `onModuleInit` are left out too.
- Embeds are not evaluated. The store model does not join related collections
  or apply a projection to rows. The model checks projection strings as strings.
- The store model's order ranks only numbers and instants (`Store.Rank`).
  Text, booleans, `null` and missing columns all rank 0, so they tie with one
  another and sort between the negative and the positive numbers and instants.
  A stable insertion sort keeps their stored order. PostgreSQL orders text by
  collation and booleans with `false` first, and it puts NULLs last when
  ascending and first when descending. None of that is modelled.
- Store.Ordered: two ordering behaviours hold for the model only.
  - `orderBy: {}` becomes an order call without a field, and the model returns
    the rows unsorted. The real code calls `order(undefined, …)` and sends
    `order=undefined.asc`; the store rejects the unknown column and the
    operation throws.
  - A read without `orderBy`, and rows that tie under one, come back in stored
    order here: `Matching` keeps that order and the sort is stable. PostgreSQL
    leaves that order unspecified. So which row `Shim.SharedDeviceFindFirst` and
    `Normalise.FirstOutcome` return, and the exact page `Normalise.PagedList`
    returns, are facts about the model.
- Store.Holds: an `eq` operand matches only a cell of the same kind
  (`Num(7)` matches `Num(7)`, never `Str("7")`). postgrest-js writes every
  operand into the URL as text (`eq.7`), and PostgreSQL casts that text to the
  column's type. So `eq('id', '7')`, as a route parameter gives it, finds row 7
  in the real store and nothing in the model. Every "admits iff … agrees"
  contract compares values this way.
- Store.Holds: an `eq` whose value is `undefined` or `null` matches no row.
  The real builder sends the text `eq.undefined` or `eq.null`. PostgreSQL
  cannot cast that text to the integer and boolean columns involved, so the
  store answers with an error, not `PGRST116`, and `ReadOne` rethrows it.
- Scenarios.HalfKeyLookup: rests on that `Store.Holds` rule. The real half-key
  `findUnique` sends `eq('userId', undefined)` and throws, where the model
  returns `null`. `Store.EqUndefinedAdmitsNothing` and
  `Scenarios.HalfKeyMatchesNothing` hold for the store model only, as does an
  `isUsed: null` lookup matching nothing.
- The store model inserts a row exactly as given and returns it unchanged. It
  generates no columns (no `id`, no `createdAt` default), applies no defaults
  and checks no constraints. `Normalise.CreateOutcome` and
  `Scenarios.CreateAndFind` depend on this.
- Normalise.CountOf returns the count of a bulk mutation as a bare number.
  The source wraps it in an object `{ count }`. The wrapper adds nothing to
  what is proved. `count` itself returns a bare number, as modelled.
- Sms.FormatPhoneNumber: lengths are counted in UTF-16 code units
  (`Sms.Utf16Length`), as JavaScript does. A string here is a sequence of
  Unicode scalar values, though, so a lone surrogate, which a JavaScript
  string may hold, cannot be an input.
- JavaScript numbers are integers here. `NaN`, fractions and a non-numeric
  `take`/`skip` are not modelled.
- Store.Page: a negative `take` or `skip` is clamped to an empty or leading
  slice. A negative `take` is truthy, so `limit(-5)` is sent, and a negative
  `skip` reaches `range`. PostgreSQL refuses a negative LIMIT or OFFSET, so the
  real call throws. `Normalise.PagedList` and `Shim.TrackingFindMany` state the
  clamped result for such inputs.
- `insert` of an array through `create` is not modelled. `create` always
  inserts one row.
- `Store.RunSingle` never reports a failed write other than the no-rows
  error. Constraint violations and other store errors appear only as arbitrary
  replies passed through `store`. The normalisers are proved for every reply.
