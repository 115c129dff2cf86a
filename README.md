# Nordetect sensor readings, modelled in Dafny

Nordetect is a small monitoring application for greenhouse and field soil
sensors. Each device (ids such as `GH001`) submits readings of nitrogen,
phosphorus and pH. The backend validates a submission, stores it as a row of
the `readings` table, and answers list queries, a latest-reading-per-device
query and two counts. The dashboard evaluates alert rules on the readings,
shows an alert banner, draws a nitrogen chart with one line per device, keeps
a cached latest-per-device list up to date after a submission, and turns
failed API calls into one message.

This project models that core and proves what each piece promises:

- `Pattern`, `Decimals`, `ValidationConstants`: the shared constants. The
  device-id regex is data (anchored, fixed-count character classes), so it can
  be compared and matched.
- `ReadingEntity`: the stored row and the column sizes it must fit.
- `FieldRules`, `CreateReadingDto`, `QueryReadingDto`: the request
  validators. Every field decorator is a constraint on a JSON value. A
  rejected request carries one error per failing property.
- `ReadingsService`: the store, as a class holding the rows and the next
  fresh id. Its methods are proved against specification functions. SQL and
  query-builder chains are given as sequence semantics: filter, a sort by the
  `ORDER BY` key, and then a prefix.
- `AlertUtils`, `AlertBanner`: the alert rules, the status colour, device
  display names and the banner's partition of the readings.
- `UseReadings`: the client cache keys and the optimistic update of the
  cached latest-readings list. The update works on arrays.
- `ReadingChart`: grouping by device, sorting each group by time and
  building the coloured datasets. It also covers `hasData`
  (`packages/frontend/src/features/readings/components/ReadingChart/ReadingChart.tsx:159`),
  which becomes the last postcondition of `ChartData`.
- `ReadingsApi`: the response interceptor's choice of error message.
- `Seqs`, `Wrappers`: generic sequence operations, `Option` and `Result`.

## Conventions

- Measurements are exact decimals (`real`). "At most k decimals" means `x * 10^k` is a whole number.
- Instants are integer milliseconds. The current time is passed in as `now`, and "24 hours earlier" is `now - 86400000`.
- The ISO 8601 date-time check is a parameter `isDateString: string -> bool`. Date parsing (`new Date(s)`) is a parameter `dateOf: string -> Instant`.
- Row ids are natural numbers taken from a counter. Only their freshness matters.
- The frontend `Reading` is the backend row, with its timestamp already converted to an instant.

Code and description differ in one place, and the model follows the code.
Without a start date, `findAll` falls back to the last 24 hours even when an
end date is given (`packages/backend/src/modules/readings/readings.service.ts:42-46`).
The comment on line 32 says the fallback applies only when no date range is given.

## Model

| member | source | states |
|---|---|---|
| ValidationConstants.DeviceIdPatternExact | packages/frontend/src/shared/constants/validation.constants.ts:36 | the device-id pattern accepts a string iff it is two ASCII capitals followed by three ASCII digits, five characters in all |
| ValidationConstants.NitrogenAlertReachable | packages/frontend/src/shared/constants/validation.constants.ts:1-20 | the nitrogen alert maximum 200 lies in the accepted range [0, 500], and an accepted value with two decimals (200.01) exceeds it |
| ValidationConstants.PhBandInsideRange | packages/frontend/src/shared/constants/validation.constants.ts:10-28 | the optimal pH band [6.0, 7.0] is a non-empty sub-interval of the accepted pH range [0, 14] |
| ValidationConstants.PhosphorusBandIsRange | packages/frontend/src/shared/constants/validation.constants.ts:6-24 | the phosphorus alert band equals the accepted phosphorus range, so no accepted value lies outside the band |
| Pattern.FullMatchLength | packages/frontend/src/shared/constants/validation.constants.ts:36 | an anchored fixed-count pattern only matches strings of exactly the length it fixes |
| ReadingEntity.ColumnMaxima | packages/backend/src/modules/readings/entities/reading.entity.ts:34-53 | decimal(6,2) holds 9999.99 but not 10000, and decimal(3,1) holds 99.9 but not 100 |
| FieldRules.NumberFailuresExact | packages/backend/src/modules/readings/dto/create-reading.dto.ts:57-59 | a number field passes its number, minimum and maximum decorators iff it is a number in [min, max] with at most the allowed decimals |
| FieldRules.AnyNumberFailuresExact | packages/backend/src/modules/readings/dto/query-reading.dto.ts:38-40 | a number field without a decimal limit passes iff it is a number in [min, max] |
| CreateReadingDto.DeviceIdFailuresExact | packages/backend/src/modules/readings/dto/create-reading.dto.ts:36-40 | `deviceId` passes iff it is a string that matches the device-id pattern |
| CreateReadingDto.ValidateReportsFailingFields | packages/backend/src/modules/readings/dto/create-reading.dto.ts:30-86 | the properties named by the validation errors are exactly the properties whose own rule fails |
| CreateReadingDto.FailingPropertiesExact | packages/backend/src/modules/readings/dto/create-reading.dto.ts:36-85 | each property is reported iff its own rule fails; nitrogen in [0, 500] and phosphorus in [0, 200] with at most 2 decimals, pH in [0, 14] with at most 1, and an optional date-string timestamp |
| CreateReadingDto.ValidateAcceptsExactly | packages/backend/src/modules/readings/dto/create-reading.dto.ts:30-86 | a submission passes validation iff every field rule holds, so one failing field rejects the whole submission |
| CreateReadingDto.Accept | packages/backend/src/modules/readings/dto/create-reading.dto.ts:30-86 | the pipe yields a typed submission iff the payload is accepted, and that submission carries the payload's values and satisfies every rule; otherwise it yields a non-empty error list |
| CreateReadingDto.DeviceIdExamples | packages/backend/src/modules/readings/dto/create-reading.dto.ts:28-40 | GH001 and FD999 are accepted; gh001, G001, GH0001, a number and a missing value are rejected |
| CreateReadingDto.MeasureExamples | packages/backend/src/modules/readings/dto/create-reading.dto.ts:57-83 | the range bounds are inclusive, 500.01 and -0.01 are out, 150.555 has too many decimals, and pH 6.55 is rejected although it is in range |
| CreateReadingDto.BackendCopiesMatchFrontend | packages/backend/src/modules/readings/dto/create-reading.dto.ts:13-28 | the backend's copies of the ranges and the device-id pattern equal the frontend constants |
| CreateReadingDto.AcceptedFitsColumns | packages/backend/src/modules/readings/entities/reading.entity.ts:18-53 | every accepted submission fits the table: the device id in 10 characters, and the values in their decimal columns, whose scales equal the validators' decimal limits |
| QueryReadingDto.ValidateQueryAcceptsExactly | packages/backend/src/modules/readings/dto/query-reading.dto.ts:10-41 | a query passes iff each field is absent or valid: a string device id, date strings, and a number limit in [1, 1000] |
| QueryReadingDto.QueryFieldsOptional | packages/backend/src/modules/readings/dto/query-reading.dto.ts:10-12 | the empty query is valid, and any string is accepted as a query device id, because queries apply no pattern |
| QueryReadingDto.NoDateOrderCheck | packages/backend/src/modules/readings/dto/query-reading.dto.ts:18-28 | two date strings pass in any order, because start and end are not compared |
| QueryReadingDto.LimitExamples | packages/backend/src/modules/readings/dto/query-reading.dto.ts:36-41 | limits 1 and 1000 and a missing limit are accepted; 0, 1001 and a non-number are rejected, not clamped |
| QueryReadingDto.AcceptQuery | packages/backend/src/modules/readings/dto/query-reading.dto.ts:5-42 | the typed query exists iff every field rule holds, carries the given device id and dates, has a limit exactly when one was sent, in [1, 1000], equal to a whole-number limit sent; otherwise the error list is non-empty |
| ReadingsService.FindById | packages/backend/src/modules/readings/readings.service.ts:74 | the lookup returns a stored row with the requested id, and returns nothing iff no stored row has that id |
| ReadingsService.FindAfterAppend | packages/backend/src/modules/readings/readings.service.ts:15-22 | after a row with a fresh id is appended, lookups of other ids are unchanged and the new id finds the new row |
| ReadingsService.RunQueryMeaning | packages/backend/src/modules/readings/readings.service.ts:36-55 | the built query returns only stored matching rows, newest first, min(limit, matches) of them, and omits no matching row newer than a returned one |
| ReadingsService.LatestExists | packages/backend/src/modules/readings/readings.service.ts:62-66 | every device with a row has a row at its maximum timestamp |
| ReadingsService.LatestByDeviceMeaning | packages/backend/src/modules/readings/readings.service.ts:58-70 | the per-device latest query returns exactly the rows at their device's maximum timestamp, with ties all kept; every device appears, the rows are sorted by device id, and nothing is invented |
| ReadingsService.LatestByDeviceExample | packages/backend/src/modules/readings/readings.service.ts:58-70 | with two readings of GH001 and one of GH002, the result is the newer GH001 reading followed by the GH002 one |
| ReadingsService.DeviceCountBounds | packages/backend/src/modules/readings/readings.service.ts:83-90 | there are never more distinct devices than rows, and at least one device when there is a row |
| ReadingsService.ReadingsService.constructor | packages/backend/src/modules/readings/readings.service.ts:10-13 | the service starts with an empty store whose id invariant holds |
| ReadingsService.ReadingsService.Create | packages/backend/src/modules/readings/readings.service.ts:15-27 | on success the store grows by exactly the returned row, which has a fresh id, the submitted values, and the supplied timestamp or else now; earlier rows and lookups are unchanged. A failed save leaves the store as it was and gives a bad request prefixed "Failed to create reading: ", with "Unknown error" for a non-Error throw |
| ReadingsService.AcceptedQueryLimitInBounds | packages/backend/src/modules/readings/dto/query-reading.dto.ts:36-41 | every query the validation accepts has a limit inside the store's bounds, the precondition of FindAll |
| ReadingsService.ReadingsService.FindAll | packages/backend/src/modules/readings/readings.service.ts:29-56 | every returned row matches the device filter if one is given, is at or after the start date, else now minus 24 hours, and at or before the end date if one is given. The rows come newest first, min(limit, matches) of them with limit 1000 by default, and no newer match is left out. The store is unchanged |
| ReadingsService.ReadingsService.FindLatestByDevice | packages/backend/src/modules/readings/readings.service.ts:58-71 | returns the rows at their device's maximum timestamp, every device included and ties kept, sorted by device id ascending; the store is unchanged |
| ReadingsService.ReadingsService.FindOne | packages/backend/src/modules/readings/readings.service.ts:73-81 | returns a stored row with the id, or a not-found error iff there is none |
| ReadingsService.ReadingsService.GetDeviceCount | packages/backend/src/modules/readings/readings.service.ts:83-90 | the count is the number of distinct device ids among the rows, and at most the number of rows |
| ReadingsService.ReadingsService.GetTotalReadings | packages/backend/src/modules/readings/readings.service.ts:92-94 | the count is the number of stored rows |
| AlertUtils.CheckAlerts | packages/frontend/src/shared/utils/alertUtils.ts:10-33 | the alert is triggered iff it has reasons; a nitrogen reason appears iff nitrogen > 200, and a pH reason iff pH < 6.0 or pH > 7.0; severity is error iff nitrogen > 200 |
| AlertUtils.AlertShape | packages/frontend/src/shared/utils/alertUtils.ts:11-31 | an alert has at most two reasons, only those of broken rules, with nitrogen's before pH's; its severity is a warning whenever nitrogen is fine, including when nothing fired |
| AlertUtils.AlertDependsOnNitrogenAndPh | packages/frontend/src/shared/utils/alertUtils.ts:10-33 | readings with equal nitrogen and pH get equal alerts, whatever their phosphorus, device or time |
| AlertUtils.AlertBoundaries | packages/frontend/src/shared/utils/alertUtils.ts:15-26 | exactly 200 ppm nitrogen and pH 6.0 or 7.0 raise nothing; the seed data's pH values 5.8, 5.9, 7.1 and 7.2 each raise a single pH warning; 200.01 ppm raises a nitrogen error |
| AlertUtils.StatusColorOf | packages/frontend/src/shared/utils/alertUtils.ts:39-45 | the colour is success iff no rule is broken, error iff nitrogen is too high, and warning iff only pH is off band |
| AlertUtils.TypePrefix | packages/frontend/src/shared/utils/alertUtils.ts:55-56 | the prefix is two characters long, or the whole of a shorter id, and prefix plus number part gives back the id |
| AlertUtils.DisplayNameParts | packages/frontend/src/shared/utils/alertUtils.ts:47-59 | a display name is one of Greenhouse, Field, Tunnel, Polyhouse or Device, then a space and the id after its first two characters; it starts with "Device " iff the prefix is not GH, FD, TB or PH |
| AlertUtils.DisplayNameExamples | packages/frontend/src/shared/utils/alertUtils.ts:47-59 | GH001 is "Greenhouse 001" and PH042 is "Polyhouse 042"; XY001 and ZZ001 both show as "Device 001"; a one-letter id shows as "Device " |
| AlertUtils.DisplayNameInjective | packages/frontend/src/shared/utils/alertUtils.ts:47-59 | distinct valid ids with known prefixes never share a display name |
| AlertBanner.BannerFor | packages/frontend/src/features/readings/components/AlertBanner/AlertBanner.tsx:12-27 | the all-normal banner is chosen iff no reading breaks a rule; otherwise at least one critical or warning entry is shown |
| AlertBanner.AlertReadingsExact | packages/frontend/src/features/readings/components/AlertBanner/AlertBanner.tsx:12 | the alerting readings are exactly the input readings that break a rule, in input order |
| AlertBanner.PartitionByRule | packages/frontend/src/features/readings/components/AlertBanner/AlertBanner.tsx:26-27 | the critical list is the readings with nitrogen above the limit, and the warning list those with only pH off band |
| AlertBanner.PartitionSizes | packages/frontend/src/features/readings/components/AlertBanner/AlertBanner.tsx:26-27 | the critical and warning lists are disjoint, together make up the alerting readings, keep input order, and their counts add up to the alert count |
| ReadingsApi.Intercept | packages/frontend/src/features/readings/services/readingsApi.ts:27-46 | a successful response passes through unchanged, and a failure becomes the error message the precedence chain picks |
| ReadingsApi.ErrorMessagePrecedence | packages/frontend/src/features/readings/services/readingsApi.ts:32-44 | status 500 and 404 win over any body message; otherwise a non-empty body message is used; without one, the transport message is used, or "An unexpected error occurred" when it is empty |
| ReadingsApi.ErrorMessageOrigin | packages/frontend/src/features/readings/services/readingsApi.ts:40-44 | the message is one of the fixed texts, the transport message or the body message, and it is empty only for a body list of at most one empty string |
| ReadingsApi.ValidationListExample | packages/frontend/src/features/readings/services/readingsApi.ts:32-44 | a 400 carrying the list ["a", "b"] reports "a,b"; a 500 reports the server-error text whatever its body says; a failure with no message and no response reports the fallback |
| UseReadings.QueryKeysShareReadingsPrefix | packages/frontend/src/features/readings/hooks/useReadings.ts:6-12 | the readings, readings-with-params, latest and stats keys all start with the readings key and the health key does not; the five keys are distinct |
| UseReadings.FirstIndexOfDevice | packages/frontend/src/features/readings/hooks/useReadings.ts:65 | the index is that of the first entry of the device, or -1 iff there is no such entry |
| UseReadings.UpsertedMeaning | packages/frontend/src/features/readings/hooks/useReadings.ts:62-76 | the new reading is in the result. A known device's first entry is overwritten whatever the timestamps, with the length and every other entry unchanged. An unknown device's reading is appended after the unchanged entries |
| UseReadings.UpsertedKeepsOnePerDevice | packages/frontend/src/features/readings/hooks/useReadings.ts:62-76 | a list with at most one entry per device keeps that property after the update |
| UseReadings.UpdateLatest | packages/frontend/src/features/readings/hooks/useReadings.ts:62-76 | with nothing cached the result is the one new reading; otherwise it is a new array holding the upserted list, and the cached array is left unchanged |
| ReadingChart.DevicesInOrder | packages/frontend/src/features/readings/components/ReadingChart/ReadingChart.tsx:38-44 | the chart's device keys are free of duplicates and are exactly the device ids that occur in the readings |
| ReadingChart.GroupsOfMeaning | packages/frontend/src/features/readings/components/ReadingChart/ReadingChart.tsx:38-44 | the record the reduce builds has exactly the devices of the readings as keys, and each key holds that device's readings in input order |
| ReadingChart.GroupByDevice | packages/frontend/src/features/readings/components/ReadingChart/ReadingChart.tsx:38-44 | the accumulation has one key per device, in first-occurrence order, and each key holds exactly that device's readings in input order |
| ReadingChart.DevicesInFirstOccurrenceOrder | packages/frontend/src/features/readings/components/ReadingChart/ReadingChart.tsx:38-62 | of any two listed devices, the earlier one's first reading comes before every reading of the later one |
| ReadingChart.GroupSizesTotal | packages/frontend/src/features/readings/components/ReadingChart/ReadingChart.tsx:38-44 | the group sizes add up to the number of readings |
| ReadingChart.SortGroups | packages/frontend/src/features/readings/components/ReadingChart/ReadingChart.tsx:47-51 | every group is replaced by its time-sorted version and no group is added or dropped |
| ReadingChart.DatasetMeaning | packages/frontend/src/features/readings/components/ReadingChart/ReadingChart.tsx:47-70 | the i-th dataset is labelled with the i-th key. Its points are that device's (timestamp, nitrogen) pairs as a multiset, one per reading, in non-decreasing time, and its colours are palette[i % 5] and that colour + "20" |
| ReadingChart.ChartData | packages/frontend/src/features/readings/components/ReadingChart/ReadingChart.tsx:36-78 | there is one dataset per distinct device, labelled with it, in first-occurrence order. Its points are that device's (timestamp, nitrogen) pairs in non-decreasing time, and its colours are palette[i % 5] and that colour + "20". The points total the number of readings, and there is a dataset iff `hasData` holds |

## Left out

- HTTP routing, the validation pipe's wiring and the controller's `getStats` pairing are not modelled. So are the health endpoints, the app and database modules, React rendering, the form component and the query cache's timing and refetch behaviour. They are framework wiring, not reading logic.
- The `@Transform(parseFloat)` and `@Type(() => Number)` coercions are left out: numeric text is not parsed, and a value arrives already as a number or as something else.
- The ISO 8601 date-time syntax and the parsing of dates are parameters, not definitions. The same holds for the time zone and daylight-saving behaviour of `setHours(getHours() - 24)`, which is modelled as exactly 24 hours earlier.
- Floating point and number formatting are left out: measurements are exact decimals. `formatValue`, the text of the alert reasons and the tooltip formatting are not modelled, because reasons are data.
- Ids are counter values. The UUID generation algorithm, and the TypeORM behaviour of `@CreateDateColumn` when a timestamp is supplied, are not modelled; the supplied timestamp is used, as the service code asks.
- SQL engine specifics are not modelled. This covers how SQLite stores and compares dates, the collation (device ids compare by code point order), the order among rows with equal timestamps, and the row order of the latest query beyond the device id.
- Strings are `seq<char>`, so UTF-16 surrogate pairs in `substring` and in string comparison are not distinguished from code points.
- ReadingsService.ReadingsService.FindAll: requires the limit to lie in [1, 1000]. Every query accepted by QueryReadingDto.AcceptQuery meets this (ReadingsService.AcceptedQueryLimitInBounds). The behaviour of the query builder for other limits is not modelled.
- QueryReadingDto.AcceptQuery: `@IsNumber()` admits non-integral limits, but the store takes an integer limit, so the model passes on the whole part. What a fractional `take` does in SQL is not captured.
- ReadingChart.SortGroups: the groups are sorted as values with a stable insertion sort, not in place inside arrays. Only sortedness and the permutation are proved, and nothing is said about the order of equal timestamps.
- ReadingChart.GroupByDevice: the keys of a JavaScript object keep insertion order only for keys that do not look like array indices; device ids such as `123` would be enumerated first. A device id that names an `Object.prototype` member (`constructor`, `toString`, `valueOf`, `__proto__`) finds an inherited value in the fresh `{}` accumulator, so the source skips creating the group and its `push` throws; the model builds a group for it. Pattern-valid ids are never index-like and never name a prototype member.
- Chart styling constants (`tension`, point radii) and the chart options are not modelled, and neither is converting the frontend's ISO timestamp strings to instants.
- Console logging in the interceptors is not modelled, and neither are the request interceptor, `ERROR_MESSAGES` and `API_ENDPOINTS`, which are display strings and URLs.
- Concurrency: every operation is sequential; `async`/`await` and `Promise.all` are not modelled.
