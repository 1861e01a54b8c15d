# Cinema backend: a Dafny model

This project models the core of a Django REST cinema backend.

- **Catalogue.** Movies, halls and showings ("functions"), with:
  - the choice lists on the models;
  - the upload checks that refuse duplicates;
  - the serializers that validate, create and partially update rows.
- **Bookings.**
  - Seats, bookings and tickets.
  - The booking views:
    - creating a booking;
    - selecting seats, which issues one ticket per seat the availability check lets through and marks that seat taken;
    - adding a combo;
    - listing a user's bookings;
    - cancelling, which frees the booking's seats.
  - The cascade of ticket rows when a booking or seat is deleted.
- **Users.**
  - The lockout fields of `CustomUser` and its lock, increment, reset and unlock methods.
  - The authentication backend.
  - The failed-login signal handler.
  - Registration, and the login serializer.
- **Notifications.** The notification service: create, list, mark as read, bulk archive, and delete old rows.
- **Payments.** `apply_discounts`, which prices a booking with the first active promotion.

How state is modelled:

- Database tables are `map`s from ids to records, or a `seq` where order matters (tickets).
- Objects the source updates in place are classes:
  - `CustomUser`;
  - `Catalog`, the movie, hall and showing tables;
  - `BookingStore`, the seat, booking, ticket and combo tables;
  - `NotificationTable`.
- Their methods are proved against value-level functions. A lemma states each property once, on those functions.

How the outside world is modelled:

- **Time** is a whole number of minutes, passed in as `now`.
- **Money** is an exact `real`.
- **Row lookups.** A row fetched by key is a parameter, which is `null` when the row is missing.
- **Abstract parameters.** These become function parameters:
  - `check_password`;
  - `check_seat_availability`;
  - `generate_ticket_code`;
  - the weekday of a date;
  - the number of days before a showing.

Files:

| file | module | models |
|---|---|---|
| wrappers.dfy | `Wrappers` | `Option` and `Result` |
| text.dfy | `Text` | decimal rendering and parsing of naturals, zero padding |
| movie_models.dfy | `MovieModels` | movies/models.py |
| movie_services.dfy | `MovieServices` | movies/services.py |
| movie_serializers.dfy | `MovieSerializers` | movies/serializers.py |
| booking_models.dfy | `BookingModels` | bookings/models.py |
| booking_views.dfy | `BookingViews` | bookings/views.py |
| user_models.dfy | `UserModels` | users/models.py |
| user_backends.dfy | `UserBackends` | users/backends.py |
| user_signals.dfy | `UserSignals` | users/signals.py |
| user_serializers.dfy | `UserSerializers` | users/serializers.py |
| notifications.dfy | `Notifications` | notifications/services.py |
| payments.dfy | `Payments` | payments/services.py |

## Model

| member | source | states |
|---|---|---|
| MovieModels.ParseGenre | movies/models.py:40-66 | A string is accepted as a genre exactly when it is one of the 19 keys, and parsing gives back the genre with that key |
| MovieModels.GenreRoundTrip | movies/models.py:40-60 | Every genre's key parses back to that genre, so the 19 keys are distinct |
| MovieModels.ParseLanguage | movies/models.py:116-119 | Only "subtitulada" and "doblada" are languages, each parsing back to its own choice |
| MovieModels.ParseFormat | movies/models.py:121-125 | Only "2D", "3D" and "IMAX" are formats, each parsing back to its own choice |
| MovieModels.NewMovie | movies/models.py:62-71 | A movie created without `available` is available and keeps its given title and dates |
| MovieModels.NewHall | movies/models.py:90-92 | A hall created without `available` is available and keeps its name and seat count |
| MovieModels.NewFunction | movies/models.py:129-130 | A showing created without times starts and ends at midnight, second 0 of the day |
| MovieModels.MovieStr | movies/models.py:73-75 | `str(Movie)` is the movie's title |
| MovieModels.HallStr | movies/models.py:94-96 | `str(Hall)` is the hall's name |
| MovieModels.DateStringRoundTrip | movies/models.py:138 | The ISO rendering of a valid date is 10 characters and parses back to the same date |
| MovieModels.TimeStringRoundTrip | movies/models.py:138 | The HH:MM:SS rendering of a valid time is 8 characters and parses back to the same time |
| MovieModels.FunctionStrParts | movies/models.py:136-138 | `str(Function)` is the movie title, " - ", the hall name, " - ", then 19 characters holding the date and start time, which parse back to the showing's own |
| MovieServices.CheckMovieUpload | movies/services.py:9-11 | The upload is refused exactly when some stored movie already has the title |
| MovieServices.CheckHallUpload | movies/services.py:13-15 | The upload is refused exactly when some stored hall already has the name |
| MovieServices.MovieUploadRefusedAfterInsert | movies/services.py:9-11 | Once a movie is stored, uploading its title again is refused |
| MovieServices.HallUploadRefusedAfterInsert | movies/services.py:13-15 | Once a hall is stored, uploading its name again is refused |
| MovieServices.CheckFunctionUpload | movies/services.py:18-42 | Duplicate when a row matches all seven modelled fields (the `function=` filter is dropped); overlap when a row in the same hall and date has exactly the same start and end; otherwise accepted, with duplicate taking precedence |
| MovieServices.FunctionUploadRejectsExactWindow | movies/services.py:35-42 | Taken together, the two queries refuse a showing exactly when a stored showing has the same hall, date, start and end, whatever its movie, language or format |
| MovieServices.PartialOverlapAccepted | movies/services.py:35-42 | As written: with 18:00-20:30 stored, 19:00-21:00 in the same hall and date is accepted |
| MovieServices.CheckFunctionUploadIntended | movies/services.py:31-42 | Corrected check: refused exactly when an identical row exists, or a same-hall, same-date showing has the same window or a window that intersects the new one |
| MovieServices.IntendedCheckKeepsSchedule | movies/services.py:31-42 | Adding a showing the corrected check accepts keeps every hall's schedule free of overlaps |
| MovieServices.IntendedCheckRefusesWhatWrittenRefuses | movies/services.py:18-42 | Every showing the check as written refuses, the corrected check refuses too, including two showings left at the midnight default |
| MovieServices.IntendedCheckRefusesPartialOverlap | movies/tests.py:80-92 | The corrected check refuses the 19:00-21:00 upload against a stored 18:00-20:30 showing |
| MovieSerializers.ValidateHall | movies/serializers.py:35-58 | Refused for a name over 100 characters, a taken name, or a seat count not above 0, each error exactly in its case and in that order. Accepted otherwise, with `available` defaulting to true |
| MovieSerializers.ValidHallIsNewAndPositive | movies/serializers.py:52-56 | An accepted hall has a fresh name and a positive seat count |
| MovieSerializers.SetHallAttr | movies/serializers.py:86-87 | `setattr` changes exactly the named hall field |
| MovieSerializers.UpdateHall | movies/serializers.py:75-89 | Each supplied field takes its supplied value and every other field keeps the instance's value |
| MovieSerializers.ValidateMovie | movies/serializers.py:113-144 | Accepted exactly when the title is at most 255 characters and not taken, the genre is one of the choices, a given classification is at most 50 characters, and the finish date is not before the release date. An accepted movie carries every field of the request, with `available` defaulting to true |
| MovieSerializers.SameDayRunAccepted | movies/serializers.py:141-142 | A movie that opens and closes on the same day, with otherwise valid fields, is accepted |
| MovieSerializers.SetMovieAttr | movies/serializers.py:172-173 | `setattr` changes exactly the named movie field |
| MovieSerializers.UpdateMovie | movies/serializers.py:161-175 | Supplied movie fields take their values; the others are unchanged |
| MovieSerializers.ValidateFunction | movies/serializers.py:196-227 | Accepted exactly when the movie and the hall exist and no showing of that movie already starts in that hall on that date at that time |
| MovieSerializers.SetFunctionAttr | movies/serializers.py:253-254 | `setattr` changes exactly the named showing field |
| MovieSerializers.UpdateFunction | movies/serializers.py:242-256 | Supplied showing fields take their values; the others are unchanged |
| MovieSerializers.Catalog.CreateHall | movies/serializers.py:61-72 | Stores the hall under a new id; nothing else changes |
| MovieSerializers.Catalog.CreateMovie | movies/serializers.py:147-158 | Stores the movie under a new id; nothing else changes |
| MovieSerializers.Catalog.CreateFunction | movies/serializers.py:229-240 | Stores the showing under a new id; nothing else changes |
| MovieSerializers.Catalog.SaveHallUpdate | movies/serializers.py:75-89 | The stored hall becomes its partial update; the other rows are unchanged |
| MovieSerializers.Catalog.SaveMovieUpdate | movies/serializers.py:161-175 | The stored movie becomes its partial update; the other rows are unchanged |
| MovieSerializers.Catalog.SaveFunctionUpdate | movies/serializers.py:242-256 | The stored showing becomes its partial update; the other rows are unchanged |
| BookingModels.NewSeat | bookings/models.py:14-17 | A new seat is available and keeps its hall, row and number |
| BookingModels.ParseStatus | bookings/models.py:26-34 | A string is a booking status exactly when it is pending, paid, cancelled or expired |
| BookingModels.StatusRoundTrip | bookings/models.py:26-34 | Every status's key parses back to that status |
| BookingModels.NewTicket | bookings/models.py:41-45 | A new ticket points at its booking and seat, carries its code, is stamped with the issue time and is not scanned |
| BookingModels.KeepTickets | bookings/models.py:41-42 | After a parent row is deleted, exactly the tickets not depending on it remain, in order |
| BookingModels.KeepTicketsKeepsOrder | bookings/models.py:41-42 | The cascade keeps table order: deleting from a table split in two is deleting from each part and joining the results |
| BookingModels.KeepTicketsKeepsCodesUnique | bookings/models.py:43 | Deleting tickets by cascade keeps ticket codes unique |
| BookingModels.DeleteBookingCascade | bookings/models.py:41 | Deleting a booking removes exactly its tickets, and the remaining tickets still reference existing rows |
| BookingModels.DeleteSeatCascade | bookings/models.py:42 | Deleting a seat removes exactly its tickets, and the remaining tickets still reference existing rows |
| BookingViews.SelectRun | bookings/views.py:53-67 | The loop over the requested seats keeps the seat keys and only appends tickets. It creates as many tickets as it appends, and no more than there are requested seats |
| BookingViews.SelectStepKeepsIssued | bookings/views.py:54-67 | One loop iteration preserves the description of what the loop has issued so far |
| BookingViews.SelectRunKeepsIssued | bookings/views.py:54-67 | The whole loop preserves that description |
| BookingViews.SelectRunAppends | bookings/views.py:53-67 | Selection only appends tickets, for seats that were requested and exist. Each new ticket is for this booking, unscanned, issued now, with the generated code. Exactly those seats become unavailable; no other seat or ticket changes |
| BookingViews.SelectRunKeepsCodesUnique | bookings/views.py:61-63 | Ticket codes stay unique, since the unique constraint halts the loop on a clash |
| BookingViews.SelectRunIssuesExpected | bookings/views.py:54-67 | For existing, distinct seats with fresh, distinct codes, the loop completes. It issues one ticket per seat the availability check lets through, in request order |
| BookingViews.MissingSeatKeepsEarlierTickets | bookings/views.py:53-63 | A missing seat after a good one ends the request with a 404. The ticket already issued stays, and the good seat stays taken |
| BookingViews.TicketsOfBooking | bookings/views.py:114 | The filter returns exactly the tickets of the booking, in table order |
| BookingViews.TicketsOfBookingKeepsOrder | bookings/views.py:114 | The filter keeps table order: filtering a table split in two is filtering each part and joining the results |
| BookingViews.CancelSpec | bookings/views.py:114-120 | Cancelling keeps every seat and booking key, and leaves the booking cancelled. Each seat is either available afterwards or unchanged |
| BookingViews.CancelFreesBookingSeats | bookings/views.py:114-120 | Cancelling frees exactly the booking's seats, sets only that booking's status to cancelled and keeps every other row |
| BookingViews.CancelIdempotent | bookings/views.py:114-120 | Cancelling the same booking twice leaves the same seats and bookings as cancelling once |
| BookingViews.ComboTicketCodeRoundTrip | bookings/views.py:91 | `CMB-<combo>-<booking>` parses back to its combo id and booking id |
| BookingViews.ComboTicketCodeInjective | bookings/views.py:91 | Different (combo, booking) pairs get different combo codes |
| BookingViews.ComboLine | bookings/views.py:79-92 | The combo line belongs to the given booking and combo. Its quantity is the requested one, defaulting to 1, and its total is that quantity times the combo price. Its code is `CMB-<combo>-<booking>`, which parses back to both ids |
| BookingViews.BookingStore.CreateBooking | bookings/views.py:27-35 | Stores a booking for the user under a new id; nothing else changes |
| BookingViews.BookingStore.SelectSeats | bookings/views.py:38-69 | Not the user's booking: not found. No seats sent: refused. Otherwise the tables become the selection run's result, and the outcome reports how the run ended. The store's invariants, including unique codes, hold after every call |
| BookingViews.BookingStore.AddCombo | bookings/views.py:72-95 | If the booking is the user's and the combo exists, appends the combo line for them, with the requested quantity, price and code. Otherwise reports which row was missing and changes nothing |
| BookingViews.BookingStore.MyBookings | bookings/views.py:97-106 | "No bookings" exactly when the user has none. Otherwise the list holds exactly the user's bookings |
| BookingViews.BookingStore.CancelBooking | bookings/views.py:108-122 | Not the user's booking: not found, nothing changes. Otherwise the seats and bookings become the cancellation's result; tickets and combos are untouched |
| UserModels.LockAt | users/models.py:27-30 | `lock` sets the lock and stamps it with the current time. The counter is unchanged |
| UserModels.FailedOnce | users/models.py:33-37 | `increment_failed_attempts` adds one failure. The user ends up locked exactly when already locked or at 3 or more, and the lock is re-stamped with the current time at 3 or more |
| UserModels.Unlocked | users/models.py:43-49 | `unlock` clears the lock and the counter once the lock is over 15 minutes old, and otherwise changes nothing. Afterwards no expired lock remains |
| UserModels.FailuresCount | users/models.py:33-37 | k failed attempts add k to the counter. They lock exactly when the user was locked or the counter reaches 3. Once the counter is 3 or more, each failure locks again, so the lock carries the time of the last failure |
| UserModels.ThreeFailuresLock | users/models.py:33-37 | A new user survives two failures and is locked by the third |
| UserModels.LockLastsWindow | users/models.py:43-49 | `unlock` does nothing up to 15 minutes after the lock. Strictly later it clears both the lock and the counter |
| UserModels.MethodsKeepLockStamped | users/models.py:27-49 | Every lockout method keeps "locked implies a lockout time" |
| UserModels.UnlockIdempotent | users/models.py:43-49 | Unlocking twice at the same time is the same as unlocking once |
| UserModels.CustomUser.constructor | users/models.py:17-22 | A new user is not locked, has no lockout time and 0 failures, and is active with the given profile |
| UserModels.CustomUser.Lock | users/models.py:27-30 | Locks the user and stamps the lock with the current time |
| UserModels.CustomUser.IncrementFailedAttempts | users/models.py:33-37 | Adds one failure and locks at 3 or more; the profile is unchanged |
| UserModels.CustomUser.ResetFailedAttempts | users/models.py:39-41 | Sets the counter to 0 and leaves the lock as it was |
| UserModels.CustomUser.Unlock | users/models.py:43-49 | Lifts an expired lock and clears the counter; otherwise nothing changes |
| UserBackends.AuthSpec | users/backends.py:11-28 | Denied exactly while a lock is within its 15 minutes, leaving the user as they were. Otherwise an expired lock is lifted. The user is authenticated exactly when the password matches, and the new state is the expired lock lifted with the counter cleared; a wrong password changes nothing further |
| UserBackends.Authenticate | users/backends.py:11-28 | No row gives no user. Otherwise the outcome and the new lockout fields are those of the decision above, and the profile is unchanged |
| UserSignals.SignalFailure | users/signals.py:16-20 | The handler adds one failure. The user ends up locked exactly when already locked or at 5 or more, and the lock is re-stamped with the current time at 5 or more |
| UserSignals.SignalFailuresCount | users/signals.py:13-22 | k signalled failures add k to the counter. They lock exactly when the user was locked or the counter reaches 5, stamped with the last failure's time. Below 5 the lock fields are untouched |
| UserSignals.FifthSignalledFailureLocks | users/signals.py:7-22 | Through the handler alone, a new user survives four failures and is locked by the fifth |
| UserSignals.LoginFailedHandler | users/signals.py:9-24 | A missing user is ignored. Otherwise the counter goes up by one, and the user is locked with the current time once the counter is at least 5 |
| UserSerializers.ValidateRegistration | users/serializers.py:9-54 | Accepted exactly when all of these hold: the username is non-blank, at most 150 characters and free; the email is non-blank and free; the password has 8 or more characters; the confirmation is non-blank and equal. Each of the eight field errors is reported exactly in its case. The mismatch error is reported, alone, exactly when every field passes and the two passwords differ |
| UserSerializers.RegistrationRefusesTaken | users/serializers.py:39-47 | A username or email that is already registered is refused |
| UserSerializers.CreateUser | users/serializers.py:56-67 | Creates a new, unlocked user with 0 failures. The role flags default to a non-admin customer |
| UserSerializers.LoginSpec | users/serializers.py:84-116 | Refused as locked exactly while the lock is within 15 minutes, and then nothing changes. A wrong password records a failure and reports 3 minus the new count. A good password on an inactive account is refused. Otherwise the user logs in, and the new state is the expired lock lifted with the counter cleared |
| UserSerializers.ValidateLogin | users/serializers.py:84-116 | No row: user not found. Otherwise the outcome and the new lockout fields are those of the login decision |
| UserSerializers.LoginKeepsInvariant | users/serializers.py:91-104 | A login keeps the lock stamped, keeps the counter non-negative, and keeps an unlocked user below 3 failures. So a wrong password reports 0 to 2 attempts left |
| UserSerializers.LoginsKeepInvariant | users/serializers.py:91-104 | Any sequence of logins keeps that invariant |
| UserSerializers.SignalledFailuresBreakInvariant | users/serializers.py:99-104 | After three failures counted by the signal handler, a wrong password at login reports -1 attempts left |
| UserSerializers.LockedUntilTooEarly | users/serializers.py:91-97 | As written, `locked_until` is the lock time plus 10 minutes, and a login at that time and one minute later is still refused |
| UserSerializers.LoginSpecIntended | users/serializers.py:91-97 | Corrected login decision: `locked_until` is the lock time plus 15 minutes; every other outcome is unchanged |
| UserSerializers.LockedUntilHonoured | users/serializers.py:91-97 | With the corrected value, a login after the reported `locked_until` is never refused for the lock |
| Notifications.UserNotifications | notifications/services.py:19-28 | Exactly the user's notifications, without archived ones unless asked for, unchanged |
| Notifications.UnreadNotifications | notifications/services.py:30-38 | Exactly the user's unread notifications, unchanged |
| Notifications.UnreadAreListed | notifications/services.py:19-38 | The unread notifications are among the default listing, which is among the listing with archived ones |
| Notifications.MarkedRead | notifications/services.py:40-52 | Exactly the user's unread rows become read at the current time; every other row is unchanged; afterwards the user has nothing unread |
| Notifications.MarkAllAsReadAgain | notifications/services.py:40-52 | Marking all as read a second time changes nothing |
| Notifications.ArchiveTargets | notifications/services.py:54-62 | The rows matched are exactly those of the user whose id is in the list |
| Notifications.ArchivedRows | notifications/services.py:54-62 | Exactly the matched rows become archived; every other row is unchanged |
| Notifications.ArchiveOnlyOwnRows | notifications/services.py:54-62 | Other users' listings are unchanged, and each archived row leaves the user's default listing |
| Notifications.WithoutOld | notifications/services.py:64-73 | Exactly the archived rows sent before the threshold (30 days by default) are deleted; every kept row is unchanged |
| Notifications.DeleteOldKeepsLiveRows | notifications/services.py:64-73 | Unread and read rows are never deleted, and deleting again at the same time removes nothing more |
| Notifications.NotificationTable.CreateNotification | notifications/services.py:7-17 | Adds one unread row under a new id, sent now, with no read time and the type defaulting to SYSTEM |
| Notifications.NotificationTable.MarkAllAsRead | notifications/services.py:40-52 | The table becomes the marked-read table and the count is the number of rows updated |
| Notifications.NotificationTable.BulkArchiveNotifications | notifications/services.py:54-62 | The table becomes the archived table and the count is the number of rows matched |
| Notifications.NotificationTable.DeleteOldNotifications | notifications/services.py:64-73 | The table loses exactly the old archived rows and the count is the number removed |
| Payments.ActivePromotions | payments/services.py:10 | Exactly the active promotions, the first of them being the first active one in table order |
| Payments.TwoForOne | payments/services.py:13-16 | Rule 1 takes off one showing price or nothing. For a non-zero price it does so exactly on the promotion's weekday, for a 2x1 promotion, with 2 or more tickets |
| Payments.CardDiscount | payments/services.py:18-21 | Rule 2 applies the percentage exactly when the promotion names a card type, the purchase's card matches it and the promotion is a percentage; otherwise it leaves the total |
| Payments.EarlyDiscount | payments/services.py:23-28 | Rule 3 applies the percentage exactly when the promotion sets a days-ahead minimum, the purchase meets it and the promotion is a percentage; otherwise it leaves the total |
| Payments.QuantityDiscount | payments/services.py:30-33 | Rule 4 applies the percentage exactly when the promotion sets a ticket minimum, the purchase meets it and the promotion is a percentage; otherwise it leaves the total |
| Payments.PromotionPrice | payments/services.py:12-33 | A non-percentage promotion applies only the 2x1 rule. A promotion that is not 2x1 applies only the three percentage rules. A promotion of neither type leaves the price unchanged |
| Payments.DiscountedTotal | payments/services.py:9-35 | No price exactly when no promotion is active; a price is never negative |
| Payments.ApplyDiscounts | payments/services.py:5-35 | The loop returns the first active promotion's four rules applied in order, clamped at 0, or nothing when none is active |
| Payments.LaterPromotionsIgnored | payments/services.py:12-35 | Promotions after the first active one never change the result |
| Payments.FirstActiveIsP | payments/services.py:10-12 | Behind inactive promotions, the first active promotion heads the filtered list |
| Payments.PercentTowardsZero | payments/services.py:21 | A percentage in [0, 100] moves a total towards 0 without crossing it |
| Payments.DiscountsNeverRaisePrice | payments/services.py:9-35 | With percentages in [0, 100] and a non-negative showing price, the discounted total never exceeds the clamped original total |
| Payments.TwoForOneTakesOnePrice | payments/services.py:14-16 | A 2x1 promotion takes one showing price off on its weekday with 2 or more tickets, and does nothing otherwise |
| Payments.PercentagesCompound | payments/services.py:18-33 | A percentage promotion matching card, early purchase and quantity applies its factor three times |
| Payments.Max0 | payments/services.py:35 | The result is non-negative, at least the input, and either the input or 0 |

## Left out

**Not modelled.**

- HTTP, routing, authentication classes, JWT, response bodies and status codes. Each view's outcome is a datatype instead of a `Response`.
- QR and e-mail sending, and caching decorators.
- Concurrency and transactions. Two requests racing on the same seat or username are not modelled.
- Password hashing. `check_password` is an abstract parameter.
- `check_seat_availability` and `generate_ticket_code`. Both are abstract parameters, because their bodies are not part of this model.
- The clock, the weekday of a date and "days before the showing". All three are inputs.
- `created_at`, `updated_at` and `issued_at` auto fields, except where a contract mentions them.
- Django field validation beyond the checks the contracts list:
  - e-mail format;
  - URL and image fields;
  - whitespace trimming of `CharField`.
- Decimal precision: money is an exact `real`. `max_digits`/`decimal_places` rounding and Decimal's 28-digit context are not modelled.
- `Notification` ordering by `-sent_at`. Listings are maps keyed by id.
- `delete()` returns a pair in Django; the model returns only the deleted-row count.
- The `bookings/serializers.py` create and update bodies. The booking is created with its given fields.

**Inferred.** `Combo`, `ComboTicket` and `Promotion` are not defined in the model sources. Their fields are the ones the views and `apply_discounts` read.

**Differences from the source as written.** In each case the model uses the evident meaning.

- The source spells the counter `failed_attemps` in most places, but the model field is `failed_attempts`. Reading the misspelt name raises `AttributeError`; this happens on the `+=` in users/models.py:34-35 and users/signals.py:16-18. Assigning it creates a plain instance attribute that `save()` never writes; see users/models.py:40 and 48 and users/backends.py:24. The model updates the one counter `failed_attempts` everywhere.
- `lock` and `unlock` (users/models.py:29, 46) call `datetime.timezone.now`, which does not exist, because users/models.py:1 imports `timezone` from `datetime`. `unlock` runs whenever a locked user logs in (users/serializers.py:92, users/backends.py:19). So, as written, the locked branch of the login serializer and the expiry branch of the authentication backend raise `AttributeError`. The model reads both calls as the current time. The `locked_until` row under "Findings" (users/serializers.py:91-97) assumes this intended `now`.
- `cancel_booking` uses `Ticket.objets`.
- `cancel_booking` is routed with `detail=False` while it reads `pk`, so as written it always looks up `id=None`. The model takes the booking id as a parameter.
- `check_function_upload` filters on a nonexistent `function=` field.
- `FunctionSerializer.validate` (movies/serializers.py:218, 221) passes `data['movie']` and `data['hall']` to `filter(id=...)`. The `PrimaryKeyRelatedField`s at movies/serializers.py:196-197 have already turned these into `Movie` and `Hall` objects. Django's integer lookup refuses an object with a `TypeError`. So, as written, every showing that passes the field checks ends in a server error instead of being accepted or refused. The model compares the ids, as intended. A movie or hall id with no row is already refused by the related field itself, so the message "La pelicula no existe" is never reached; `FunctionMovieMissing` and `FunctionHallMissing` stand for that refusal.
- `select_seats` ends without returning a response.

**Other limits.**

- MovieSerializers.ValidateHall: does not model the refusal of a blank name by the serializer's `CharField`. It checks the serializer's limit of 100 characters for a hall name. The model field's `max_length=50`, enforced only by the database, is left out.
- MovieSerializers.ValidateMovie: does not model the refusal of a blank title or synopsis, the required poster and classification, or URL validation of the trailer.
- BookingViews.ComboTicketCode: the source formats the raw `combo_id` request value, so a value sent as "007" gives `CMB-007-5`. The model takes the id as a number and writes `CMB-7-5`.
- MovieModels.TimeString: the model's `Time` has no microseconds, so the `HH:MM:SS.ffffff` form that `str(time)` takes for a time with microseconds is not covered.
- BookingViews.ComboLine: its code is not unique across repeated adds of the same combo to a booking. The source has no unique constraint on it, so none is stated.
- UserSerializers.LoginSpec and UserBackends.AuthSpec require the stored lock to carry a time whenever it is set. Every method in the model keeps that. An inconsistent database row is not modelled.
- MovieSerializers.Catalog.SaveHallUpdate, MovieSerializers.Catalog.SaveMovieUpdate and MovieSerializers.Catalog.SaveFunctionUpdate: they apply whatever partial update they are given (for example a seat count of -5), and do not model `validate` under `partial=True` (movies/views.py:138, 212, 334). In the source:
  - `validate` reads `data['name']` and `data['total_seats']` (movies/serializers.py:52, 55), `data['title']` and both dates (138-141), and `data['movie']` (218). A partial payload that lacks any of these raises `KeyError`.
  - The uniqueness queries do not exclude the row being updated. Resending a hall's or movie's own unchanged name or title is refused as taken.
  - Only a payload that passes `validate` reaches `save`, so some of the updates these methods accept can never be saved.
- MovieServices.CheckFunctionUpload, UserSerializers.LoginSpec and the methods built on them model the code as written. The corrected versions in "Findings" are stated beside them, and proved, but the views do not call them.

## Findings

| source | as written | input that shows it | evidently intended | confidence | as-written member | corrected member |
|---|---|---|---|---|---|---|
| movies/services.py:35-42 | The "overlap" query matches only showings with exactly the same start and end | Hall 1 on 2024-05-20 has 18:00-20:30; uploading 19:00-21:00 in that hall and date is accepted | Any same-hall, same-date showing whose window intersects the new one is refused, so no hall is double-booked | not executed | MovieServices.PartialOverlapAccepted | MovieServices.IntendedCheckKeepsSchedule |
| users/serializers.py:91-97 | `locked_until` is reported as the lock time plus 10 minutes, while `unlock` waits 15 | Locked at minute t; logging in at the reported t + 10 (or t + 11) is still refused as locked | `locked_until` is the lock time plus 15 minutes, the moment the lock is lifted | not executed | UserSerializers.LockedUntilTooEarly | UserSerializers.LockedUntilHonoured |
