# xSports server side, modelled in Dafny

This project models the request-handling core of the xSports server. It is a Django REST
Framework backend where players and sports academies sign up, log in, post, chat, follow
each other and register for selection trials, and where an admin approves academies and
tallies the registration fees.

The ORM tables are fields of one `Store.Database` object:
- tables looked up by id are maps keyed by id;
- tables read in creation order are sequences;
- the like, follow and friendship relations are sets of pairs;
- `nextId` is the next primary key.

Other effects are modelled like this:
- A background task handed to Celery with `.delay` is appended to the `jobs` log. The one
  task the core itself runs, `send_notification`, is modelled step by step. Of `send_otp`
  the model keeps the effect on the tables: the owner of the address receives the drawn
  six-digit code (`UsersTask.RunSendOtp`).
- The websocket channel layer is a class holding named groups of connections and a log of
  every pushed message, with the recipients it had at that moment.
- Each view is a method that changes only the tables it names. Its contract gives the
  whole new state in every branch, including the exception branches. An exception the view
  does not catch returns `Err`.
- Requests are not wrapped in transactions (the settings do not enable `ATOMIC_REQUESTS`),
  so each write commits when it is made and an exception keeps the writes before it. Most
  modelled exceptions are raised before the view's first write, so they leave the tables as
  they were. There are three exceptions:
  - `PlayersInTrialViewSet.create` runs inside `transaction.atomic`, and an exception
    there discards every write of the request;
  - the status mail that `partial_update` queues stays queued when the save after it fails;
  - the notification task keeps the rows it wrote before an unknown receiver.
- The decisions the views take are functions: the login check chain, the JWT gate, the
  relationship status, signup validation, the permission classes and the unique-id
  construction. Lemmas state what the source promises about them: each check fires
  exactly when its condition holds, an earlier check wins, thread names are symmetric,
  like toggling twice restores the table, and a blocked account cannot log in.

One module corresponds to each core source file. Some files are split for size:
- users/views.py becomes `SignupForm`, `UsersViews` and `UsersSearch`;
- selection_trial/models.py becomes `TrialModels` and `TrialSignals`;
- the shared tables are in `Store`;
- `UsersTask` holds the table effect of the `send_otp` task of users/task.py.

Where the code and its tests disagree, the model follows the code:
- signup answers "Registration Successful, Check Email For Verification";
- a missing field is answered with no message of its own.

Two effects run in an order readers may not expect, and the model keeps that order:
- the chat consumer pushes the notification before writing its row;
- the notification task stops at the first unknown receiver and keeps the rows it has
  already written.

Three behaviours of the code are modelled as written:
- `partial_update` indexes `request.data["status"]` before reading it with a default, so a
  request without `status` raises. The "registered" default is never used.
- `mark_as_read` looks the notification up in the whole table, so any signed-in user can
  mark any notification as read.
- The chat notification type "new_message" is not among the notification types the model
  declares.

## Model

| member | source | states |
|---|---|---|
| Permissions.IsAdmin | common/custom_permission_classes.py:13-14 | grants exactly a signed-in staff user; never raises (the anonymous user has `is_staff`) |
| Permissions.IsAcademy | common/custom_permission_classes.py:26-27 | grants exactly a signed-in academy; raises exactly for the anonymous user |
| Permissions.IsPlayer | common/custom_permission_classes.py:39-42 | grants exactly a signed-in user that is neither academy nor staff; raises exactly for the anonymous user |
| Permissions.IsUser | common/custom_permission_classes.py:52-53 | grants every requester that is not a staff member, the anonymous one included; never raises |
| Permissions.PlayerIsUser | common/custom_permission_classes.py:39-53 | every requester `IsPlayer` grants is granted by `IsUser` |
| Permissions.AdminUserPartition | common/custom_permission_classes.py:13-14 | `IsAdmin` and `IsUser` never both grant, and one of them always grants |
| Permissions.Or | selection_trial/views.py:29 | DRF's OR of two permission classes: grants when the first grants, raises when the first raises, and otherwise answers as the second |
| Permissions.UserOrAdminGrantsAll | common/custom_permission_classes.py:52-53 | so the union of `IsUser` and `IsAdmin` grants every requester |
| Permissions.AcademyIsUserNotPlayer | common/custom_permission_classes.py:26-42 | a non-staff academy passes `IsAcademy` and `IsUser` and is refused by `IsPlayer` |
| JwtMiddleware.Message | users/middleware/jwt_authorization_middleware.py:48-60 | the middleware fixes the message of every denial except the unpacking and decoding errors, whose text is the exception's |
| JwtMiddleware.Gate | users/middleware/jwt_authorization_middleware.py:13-63 | a denial is 400 exactly when the header is missing, and 401 otherwise |
| JwtMiddleware.GateForwardIff | users/middleware/jwt_authorization_middleware.py:31-62 | a request is forwarded if and only if its path is exempt or it carries a bearer header whose token decodes |
| JwtMiddleware.ExemptIgnoresHeader | users/middleware/jwt_authorization_middleware.py:14-34 | a public, media or websocket path is forwarded whatever the header |
| JwtMiddleware.MissingHeaderRejected | users/middleware/jwt_authorization_middleware.py:37-60 | any other path with no or an empty header gets 400 "Authorization header missing" |
| JwtMiddleware.BearerTokenDecision | users/middleware/jwt_authorization_middleware.py:41-51 | for `<scheme> <token>`: a scheme other than "bearer" in any case gives 401 "Invalid token type"; with "bearer", forwarded iff the token decodes, 401 "Token has expired" / "Invalid token" otherwise |
| JwtMiddleware.SchemeOnlyRejected | users/middleware/jwt_authorization_middleware.py:41-54 | a header with no token fails to unpack (one value) before any decoding, with 401 |
| ChannelLayer.NotificationGroupInjective | real_time/task.py:47 | two users never share a notification group name `notification_<id>` |
| ChannelLayer.Members | real_time/consumers.py:29-37 | a group never joined has no members |
| ChannelLayer.Layer.constructor | real_time/consumers.py:20-37 | a fresh layer has no groups and no sent messages |
| ChannelLayer.Layer.GroupAdd | real_time/consumers.py:29 | `group_add` puts the channel in the group and changes no other group |
| ChannelLayer.Layer.GroupDiscard | real_time/consumers.py:37 | `group_discard` takes the channel out of the group and changes no other group |
| ChannelLayer.Layer.GroupSend | real_time/consumers.py:61-64 | `group_send` logs one push, delivered to the group's members at that moment |
| ChannelLayer.AddThenDiscard | real_time/consumers.py:29-37 | connecting and then disconnecting a channel leaves its group as it was |
| Consumers.ChatNotice | real_time/consumers.py:65-89 | the notification row of a chat message: unseen, type "new_message", link "/chat/<room>", text "New message from <sender's username>" |
| Consumers.PersonalChatConsumer.constructor | real_time/consumers.py:10-19 | a consumer starts unaccepted on its channel |
| Consumers.PersonalChatConsumer.Connect | real_time/consumers.py:20-30 | the room and its group are the thread name; the channel joins that group and the socket is accepted |
| Consumers.PersonalChatConsumer.Disconnect | real_time/consumers.py:32-37 | the channel leaves the thread's group, which has no other change |
| Consumers.PersonalChatConsumer.Receive | real_time/consumers.py:39-89 | between two known users: the chat row is saved, broadcast to the thread group, announced to the receiver's notification group, and only then the notification row is written, in that order; an unknown sender or receiver changes nothing |
| Consumers.NotificationConsumer.constructor | real_time/consumers.py:153-161 | a consumer starts unaccepted on its channel |
| Consumers.NotificationConsumer.Connect | real_time/consumers.py:163-173 | the channel joins `notification_<user_id>` for the URL's user id and the socket is accepted |
| Consumers.NotificationConsumer.Disconnect | real_time/consumers.py:175-182 | the channel leaves its notification group |
| Consumers.SocketGroupMatchesPushes | real_time/consumers.py:169 | the group a socket joins for user `id` is the one pushes for `id` go to, and no other user's |
| NotificationTask.KnownPrefix | real_time/task.py:32-34 | the number of receivers handled before the first unknown one: all before it exist, the one at it does not |
| NotificationTask.TaskRows | real_time/task.py:37-43 | one notification row per handled receiver |
| NotificationTask.TaskPush | real_time/task.py:46-57 | the push for one receiver goes to its notification group with the type, sender's username, text and link |
| NotificationTask.TaskPushes | real_time/task.py:46-57 | one push per handled receiver |
| NotificationTask.TaskRowsAre | real_time/task.py:32-43 | row `j` is the notification from the sender to receiver `j` with consecutive ids |
| NotificationTask.TaskPushesAre | real_time/task.py:32-57 | push `j` is the push to receiver `j` |
| NotificationTask.TaskStepsOrder | real_time/task.py:32-57 | for each receiver the row is written before its push, receiver by receiver in list order |
| NotificationTask.TaskRowsStep | real_time/task.py:32-43 | handling one more receiver appends exactly its row |
| NotificationTask.TaskStepsStep | real_time/task.py:32-57 | handling one more receiver appends exactly its row write and then its push |
| NotificationTask.TaskStep | real_time/task.py:32-57 | one more iteration extends the rows and the pushes by exactly that receiver's row and push |
| NotificationTask.DeliverNext | real_time/task.py:36-57 | iteration `i` takes the rows and pushes of the first `i` receivers to those of the first `i + 1` |
| NotificationTask.Deliver | real_time/task.py:37-57 | one loop iteration: one new row and one push to that receiver's group |
| NotificationTask.DeliverAll | real_time/task.py:32-57 | the loop stops at the first unknown receiver, having written the rows and pushes of all before it |
| NotificationTask.KnownPrefixIs | real_time/task.py:32-34 | the index where the loop stops is the known prefix |
| NotificationTask.AddTaskRows | real_time/task.py:37-43 | the new rows keep notification ids below the next free id |
| NotificationTask.SendNotification | real_time/task.py:10-57 | an unknown sender raises before anything happens; otherwise rows and pushes for the known prefix of receivers, success iff every receiver exists |
| NotificationTask.AllKnownReceivers | real_time/task.py:32-34 | when every receiver exists the loop handles all of them |
| Common.QueryItem | users/views.py:36-37 | reading one key of a multi-valued form gives its last value; it is truthy exactly when that value exists and is not empty |
| Common.Get | users/views.py:36 | `data.get(key, None)` is present exactly when the key is, with the stored value |
| Common.DictSet | admin/views.py:289-296 | `d[k] = v` on an insertion-ordered dictionary: a new key goes last, an existing key keeps its position |
| Common.DictGetSet | admin/views.py:289-296 | reading a key just written gives the value written |
| Common.DictGetOther | admin/views.py:289-296 | writing one key leaves every other key's value as it was |
| Common.DictGetHasKey | admin/views.py:288 | `k in d` holds exactly when reading `k` finds a value |
| Common.DictSetDistinct | admin/views.py:289-296 | writing a key never makes a key occur twice |
| Common.NatToString | selection_trial/models.py:92 | `str(n)` is a non-empty string of decimal digits, with two or more digits exactly from 10 on |
| Common.NatToStringInjective | selection_trial/models.py:92 | different numbers are rendered differently |
| Common.IntToString | selection_trial/views.py:234 | `str(i)` of an integer starts with a minus sign exactly when it is negative, and is `str(n)` for a natural |
| Common.IntToStringInjective | selection_trial/views.py:234 | different integers are rendered differently |
| Common.KeyOf | real_time/views.py:87-88 | a lookup by `id` converts the value with `int()`: an int as itself, a boolean as 0 or 1, a string as `int()` reads its text; null, lists and unreadable strings are no key |
| Common.IntLiteral | real_time/views.py:87-88 | `int()` of a text reads a number exactly when the stripped text is an optional sign followed by decimal digits; a leading `-` gives a non-positive value, otherwise it is non-negative |
| Common.IntLiteralOfPrinted | real_time/views.py:87-88 | `int(str(i)) == i` for every integer |
| Common.IntLiteralPadded | real_time/views.py:87-88 | whitespace around the text does not change what `int()` reads |
| Common.IntLiteralSigned | real_time/views.py:87-88 | `int("+" + str(n))` is `n` and `int("-" + str(n))` is `-n` |
| Common.StripPadded | users/models.py:30 | whitespace added at both ends is removed again by `strip()` |
| Common.KeyOfPrinted | real_time/views.py:87-88 | an id sent as its decimal text names the same row as the number itself |
| Common.PyStr | real_time/views.py:80 | `str()` of a string is the string and of an int is its decimal text; only a list is not rendered |
| Common.DecimalValueOfNatToString | post/views.py:129 | `int(str(n)) == n`: a number rendered in decimal is read back unchanged |
| Common.WordsAreWords | users/middleware/jwt_authorization_middleware.py:41 | `str.split()` yields non-empty pieces without whitespace |
| Common.TwoWords | users/middleware/jwt_authorization_middleware.py:41 | splitting `a<spaces>b` gives exactly `[a, b]` |
| Common.Strip | users/models.py:30 | the stripped string has no whitespace at either end, whitespace being every character Python's `str.isspace` accepts, the Unicode separators included |
| Common.StripIsSlice | users/models.py:30 | `strip()` removes only whitespace: its result is a slice `s[i..j]` with nothing but whitespace before `i` and from `j` on |
| Common.Lower | users/models.py:30 | lower-casing keeps the length and maps every character with the ASCII rule (non-ASCII letters are listed under Left out) |
| Common.RemoveSpaces | selection_trial/models.py:92 | `replace(" ", "")` leaves no space and keeps every other character as often as it occurs |
| Common.RemoveSpacesAppend | selection_trial/models.py:92 | removing spaces piece by piece is removing them from the whole, so the kept characters keep their order |
| Common.RemoveSpacesNoSpace | selection_trial/models.py:92 | a text without spaces is unchanged |
| Common.ContainsIff | users/utils.py:30 | `sub in s` holds exactly when `sub` occurs at some position of `s` |
| Common.LastIndexOf | users/models.py:30 | the position of the last occurrence of a character, or none when it does not occur |
| Store.Database.constructor | users/models.py:67-104 | a fresh database has every table empty and hands out ids from 0 |
| Store.AddNotification | real_time/models.py:32-70 | a row appended with the next id keeps every notification id below the next free one |
| Store.AddUser | users/models.py:87 | a user with a fresh id and an unused address keeps the table keyed by id and the addresses unique |
| Store.UpdateUser | users/models.py:87 | rewriting a user row without changing its address keeps both invariants |
| Store.FindByEmail | users/views.py:106-178 | `Users.objects.get(email=...)`: the first matching row by id, or none when no row below the bound has the address |
| Store.FindByEmailComplete | users/views.py:171-178 | the lookup finds a row exactly when some user has the address |
| Store.UnseenCount | users/views.py:263-265 | the number of unseen notifications of a receiver, at most the number of rows |
| Store.UnseenCountAppend | users/views.py:263-265 | a new row adds one to its receiver's count exactly when it is unseen |
| Store.ThreadMessages | real_time/views.py:38-83 | the chats of a thread: every one carries the thread name, each chat of the thread appears exactly as often as in the table, and nothing else; a missing name selects the chats without thread name |
| Store.ThreadMessagesAppend | real_time/views.py:38-83 | the filter keeps creation order: filtering a longer log appends the filtered rest |
| Store.FollowerIds | selection_trial/serializers.py:90 | the followers of an academy, each once, in increasing id order |
| Store.FriendIds | post/serializers.py:109 | the friends of a user, each once, in increasing id order |
| UsersModels.SetPassword | users/models.py:32 | `set_password(None)` leaves an unusable password; a string becomes the password checked against |
| UsersModels.DefaultUser | users/models.py:86-97 | a new `Users` row has the declared defaults: not academy, active, unverified, provider "email", no admin flag, no OTP |
| UsersModels.EmptyProfile | users/models.py:143-151 | a new profile has every optional field null |
| UsersModels.NormalizeEmail | users/models.py:30 | an address with no `@` after stripping is kept as given |
| UsersModels.LowerIdempotent | users/models.py:30 | lower-casing twice is lower-casing once |
| UsersModels.AddressShape | users/models.py:30 | a normalised address is stripped, its last `@` is the one between name and domain, and the domain is lower case |
| UsersModels.NormalizeOfNormalized | users/models.py:30 | normalising an address already of the form `name@lower(domain)` returns it unchanged |
| UsersModels.NormalizeEmailIdempotent | users/models.py:30 | normalising twice is normalising once |
| UserManager.ManagedUser | users/models.py:28-33 | the row `create_user` saves: normalised address, declared defaults, the given admin flags, the password set from the argument |
| UserManager.CreateUser | users/models.py:11-34 | no address raises "Users must have an email address"; a normalised address already taken is an integrity error; otherwise exactly one row is added with the next id; keys and unique addresses are preserved |
| UserManager.SuperuserCheck | users/models.py:54-60 | the call passes exactly when each flag is absent or literally `True`; `is_staff` is checked first |
| UserManager.CreateSuperuser | users/models.py:36-64 | a rejected flag raises its message and adds nothing; once the flags pass, the `create_user` outcomes hold: no address raises, a taken address is an integrity error, both with no change, and the one row that is created exactly when the address is new is a staff superuser |
| UserManager.SuperuserDefaultsPass | users/models.py:54-55 | with no flags given the defaults pass the check |
| UserManager.TruthyIsNotTrue | users/models.py:56-60 | a truthy but non-`True` flag (1, "True") is rejected: the check is `is not True` |
| UserSerializer.MissingKey | users/serializers/user_serializer.py:59-63 | the first of `sport`, `state`, `district`, `password` that is absent raises a `KeyError`; `license` may be absent |
| UserSerializer.NewAccount | users/serializers/user_serializer.py:64-66 | the saved account carries the submitted fields, the defaults for the rest, and the submitted password |
| UserSerializer.SportRows | users/serializers/user_serializer.py:69-70 | one sport row per submitted sport, in order |
| UserSerializer.AddSports | users/serializers/user_serializer.py:69-70 | the loop appends exactly those rows |
| UserSerializer.InsertAccount | users/serializers/user_serializer.py:64-73 | for a complete payload with a free address: the account with the next id and the submitted password, one sport row per sport, the profile with state and district, and an uncertified academy row exactly when a licence is given; the tables stay keyed and addresses stay unique |
| UserSerializer.Create | users/serializers/user_serializer.py:58-74 | a missing key raises and a taken address is an integrity error, both with no change; otherwise the account, its sports, its profile with state and district, and an uncertified academy row when a licence is given |
| SignupForm.AcademyAdjusted | users/views.py:46-48 | an academy signup (`is_academy` is "true") replaces `sport` by the `sport[]` list, empty when absent; every other key is kept |
| SignupForm.Entry | users/views.py:51-64 | one check adds its message exactly when its key is present and empty |
| SignupForm.Checked | users/views.py:51-64 | the checks only add entries, at most one each |
| SignupForm.CheckedMembers | users/views.py:51-64 | after the first `n` checks an entry is present exactly when it was before or its key is present and empty |
| SignupForm.CheckedAppends | users/views.py:51-64 | the checks append their entries after the e-mail entry |
| SignupForm.RequiredFieldsShape | users/views.py:51-64 | the checked keys are distinct and none is "email" |
| SignupForm.CheckedFresh | users/views.py:51-64 | no check writes a key an earlier check wrote, so each writes a new entry |
| SignupForm.CheckedNoEmail | users/views.py:51-64 | the field checks never write the "email" entry |
| SignupForm.EmailError | users/views.py:36-43 | no e-mail error only when an address was sent |
| SignupForm.SignupErrors | users/views.py:33-68 | an empty `errors` means the address was sent, syntactically valid and free |
| SignupForm.SignupFieldErrorIff | users/views.py:51-64 | a field's message is among the errors exactly when the field is present and empty after the academy adjustment |
| SignupForm.SignupErrorsExplained | users/views.py:33-68 | every error is the e-mail entry or the message of a present, empty field |
| SignupForm.RegisteredEmailMessage | users/views.py:66-68 | for a taken address the "email" entry says "Account with Email already exist try login", overriding a syntax error |
| SignupForm.AcademyWithoutSportList | users/views.py:46-54 | an academy signup without `sport[]` is refused with "Sport is Required" |
| SignupForm.CheckField | users/views.py:51-64 | one check as a statement performs exactly one step of `Checked` |
| SignupForm.CheckRequiredFieldsA | users/views.py:51-58 | the first four checks |
| SignupForm.CheckRequiredFieldsB | users/views.py:59-64 | the last three checks |
| SignupForm.CollectSignupErrors | users/views.py:33-68 | the statements build exactly `SignupErrors` |
| UsersViews.Signup | users/views.py:29-92 | any validation error answers 400 with the messages in insertion order and changes nothing; a serializer error answers with its text; success happens exactly when validation passes, the popped keys are present and the stripped address is free, and writes the account with the stripped address, its sports, profile and academy row, and queues the OTP mail to the address as submitted |
| UsersViews.SubmittedEmail | users/views.py:36 | the address the request submits is the last "email" value |
| UsersViews.Payload | users/views.py:78-80 | the payload `create` receives is the serializer's verdict with the address as its `EmailField` cleans it: the submitted one stripped of surrounding whitespace |
| UsersViews.CreateAndMail | users/views.py:81-92 | `create` on the payload; the OTP mail to the submitted address is queued exactly when it succeeds, with all of `create`'s rows; otherwise nothing changes |
| UsersViews.EmailOwner | users/views.py:104-106 | the account whose address equals the request's `email`, or none when no account has it |
| UsersViews.Verified | users/views.py:117-120 | verification clears the OTP and sets `is_verified`, nothing else |
| UsersViews.OtpCheck | users/views.py:109-128 | no stored OTP gives "OTP Expired try resending otp"; 200 "OTP Verified" exactly when the submitted value is the stored string; "Invalid OTP" otherwise |
| UsersViews.OtpSingleUse | users/views.py:117-120 | after a successful verification the same or any OTP is answered as expired |
| UsersViews.NumericOtpRejected | users/views.py:117 | a number never matches the stored string OTP |
| UsersViews.VerifyOtp | users/views.py:101-135 | an unknown address answers "Your token has been expired try login again " with no change; otherwise the OTP check decides and only a success rewrites the row |
| UsersTask.SixDigits | users/task.py:13 | a code drawn from 100000..999999 has six digits |
| UsersTask.OtpText | users/task.py:13-18 | the stored code is six decimal digits, within the column's `max_length` of 10 |
| UsersTask.WithOtp | users/task.py:16-18 | after `send_otp` the account the address lookup finds holds the code; the table keeps its keys, no other column changes and no account with another address changes |
| UsersTask.RunSendOtp | users/task.py:10-23 | the users table becomes `WithOtp`, which leaves it unchanged when no account has the address (the task swallows the exception); the table invariants are kept |
| UsersTask.FindByEmailSameAddresses | users/task.py:16 | the lookup by address depends on the rows' addresses only |
| UsersTask.SentCodeVerifies | users/task.py:13-18 | after `send_otp`, a `VerifyOtp` request with the same address and the code as text finds that account and answers 200 "OTP Verified" |
| UsersTask.PaddedSignupGetsNoCode | users/views.py:81-84 | `Signup` queues `send_otp` with the submitted address but stores it stripped: when the two differ the new account never receives the code and its verification answers "OTP Expired try resending otp" |
| UsersViews.PasswordMatches | users/views.py:181 | `check_password` compares the text of the submitted value: a string as it is, a JSON number or boolean as its `str()`; a missing password never matches |
| UsersViews.NumericPasswordMatches | users/views.py:181 | a password sent as a number matches exactly when its decimal text does |
| UsersViews.LoginCheck | users/views.py:145-278 | a refusal is always 400 and a granted login has role "academy" or "player" |
| UsersViews.AccountCheck | users/views.py:180-278 | a refusal is always 400 and a granted login has role "academy" or "player" |
| UsersViews.LoginFieldsFirst | users/views.py:151-176 | a missing `email`, then a missing `password`, then an unknown address are answered before any account check |
| UsersViews.LoginAdminIff | users/views.py:181-238 | an admin login happens exactly for a right password, an `is_staff` request and a staff, active account whose academy flag matches; verification plays no part |
| UsersViews.LoginGrantedIff | users/views.py:181-278 | a player or academy login happens exactly with a right password, no admin flag anywhere, an active, verified account of the requested role and, for an academy, a certified academy row; it reports the unseen notifications |
| UsersViews.LoginUnverifiedIff | users/views.py:181-246 | the 403 "You are not verified" answer comes exactly when every earlier check passes for an unverified account, and names its address |
| UsersViews.Login | users/views.py:145-278 | the answer is the check chain's, and the OTP mail is queued exactly for the 403 answer |
| UsersViews.PasswordFrom | users/views.py:349 | `set_password`: a string becomes the password, null leaves it unusable, any other value raises |
| UsersViews.ForgetPassword | users/views.py:340-380 | no `email` answers "Email is not valid, Try signin"; with a password, an unknown address answers "Account does not exist", a non-string password "Internal Server Error", otherwise the password is reset; without one, a known address gets the OTP mail and "Email is valid" |
| UsersSearch.FriendStatus | users/views.py:456-469 | one of the five statuses, and "self" exactly for the viewer |
| UsersSearch.FriendStatusPrecedence | users/views.py:456-469 | the friend status is "self", then "request_sent", then "request_received" for pending requests only, then "friends", else "none"; each holds exactly under its conditions |
| UsersSearch.FollowStatus | users/views.py:471-480 | "following" exactly for an academy the searcher follows, "follower" exactly for a player following the searcher |
| UsersSearch.PhotoUrl | users/views.py:488-492 | the media URL prefixed to a non-empty path, or "" |
| UsersSearch.UserSuggestion | users/views.py:483-503 | a user entry carries the id, name, role type, count (followers for an academy, friends for a player) and both statuses |
| UsersSearch.UserSuggestions | users/views.py:455-503 | one entry per user row, in query order |
| UsersSearch.TrialsFor | users/views.py:423-434 | an academy sees only its own trials; a player sees every matching trial |
| UsersSearch.TrialSuggestion | users/views.py:507-514 | a trial entry carries the id, name, sport as bio, type "Trial" and the registration count, and no statuses |
| UsersSearch.TrialSuggestions | users/views.py:505-517 | one entry per trial row, in query order |
| UsersSearch.InsertByCountMultiset | users/views.py:522 | inserting one entry keeps every entry |
| UsersSearch.InsertByCountSorted | users/views.py:522 | inserting into a list in descending count order keeps that order |
| UsersSearch.SortByCountDescending | users/views.py:522 | `sort(key=count, reverse=True)` leaves the counts in descending order |
| UsersSearch.SortByCountMultiset | users/views.py:522 | the sort is a permutation |
| UsersSearch.InsertByCountStable | users/views.py:522 | inserting keeps the relative order of entries with equal counts |
| UsersSearch.SortByCount | users/views.py:522 | the sort keeps the number of entries |
| UsersSearch.SortByCountStable | users/views.py:522 | the sort is stable: the entries of each count keep their order |
| UsersSearch.SearchResults | users/views.py:505-523 | the user entries and the trial entries visible to the viewer, one each, in descending count order, as a permutation of them |
| UsersSearch.Search | users/views.py:392-525 | an empty `q` answers "No query provided."; otherwise the user entries followed by the trial entries, sorted stably by descending count, as a permutation of them |
| UsersUtils.Validate | users/utils.py:28-41 | a token that fails verification gives "Token is invalid or has expired" |
| UsersUtils.ValidateClaimsIff | users/utils.py:37-38 | the claims are returned exactly when the token verifies and its issuer contains "accounts.google.com"; otherwise the function returns nothing |
| UsersUtils.GoogleIssuerAccepted | users/utils.py:37-38 | the issuer "https://accounts.google.com" is accepted |
| UsersUtils.SocialUser | users/utils.py:113-121 | the created account has the given address, name and provider, is verified and active, and its password is the social password |
| UsersUtils.SocialLogin | users/utils.py:58-62 | `login_social_user` logs the account in exactly when `authenticate` accepts it (active, with the social password as its password) and it has a profile row; otherwise reading `user.userprofile` raises |
| UsersUtils.SocialLoginNeedsActive | users/utils.py:58-62 | a blocked account, or one whose password is no longer the social password, never gets through social sign-in |
| UsersUtils.NewSocialUserLogsIn | users/utils.py:117-124 | the account created for a new address passes `login_social_user` once its profile exists |
| UsersUtils.RegisterSocialUser | users/utils.py:101-124 | a known address goes through `login_social_user` when its provider matches and is refused naming its provider otherwise, with no change; an unknown address gets a new verified account and an empty profile, and logs in |
| ProfileModels.NewFriendRequest | user_profile/models.py:89-95 | a new request is from and to the given users and starts "pending" |
| FriendRequests.CreateRequest | user_profile/models.py:97-98 | a second request for the same (from, to) pair is an integrity error with no change; otherwise one pending request is added with the next id; at most one request per pair is kept |
| FriendRequests.Accept | user_profile/models.py:100-109 | the request becomes "accepted" and each of the two users is added to the other's friends, nothing else; friendship stays symmetric |
| FriendRequests.AcceptedStillReadsAsReceived | user_profile/models.py:100-109 | after an accept the author's posts still read "received" for the receiver, not "friends", because the request row is kept |
| FriendRequests.CreateFollow | user_profile/models.py:128-129 | a second follow of the same academy by the same player is an integrity error; otherwise the pair is added |
| PostSerializers.RelationshipStatus | post/serializers.py:143-191 | the status is one of the nine documented values, and "self" exactly for the viewer's own posts |
| PostSerializers.RelationshipPrecedence | post/serializers.py:164-191 | an academy author reads "following"/"follow" by the viewer's follow; an academy viewer reads "follower"/"notfollower" by the author's follow; between players any request from the author reads "received", then any request to the author "sent", then "friends" |
| PostSerializers.RelationshipIgnoresRequestStatus | post/serializers.py:176-186 | the status reads requests by their pair only, never by their pending or accepted status |
| PostSerializers.IsOwnPost | post/serializers.py:136-141 | `obj.user == user`: the viewer wrote the post |
| PostSerializers.OwnPostIsSelf | post/serializers.py:136-162 | `is_own_post` holds exactly when the relationship status is "self" |
| PostSerializers.ChildIds | post/serializers.py:132-134 | the comments a post filter selects are exactly the comments of the post with the given parent, in id order |
| PostSerializers.ReplyIds | post/serializers.py:42-43 | `obj.replies.all()`: exactly the comments whose parent is the given one, of any post, in id order |
| PostSerializers.Thread | post/serializers.py:36-44 | a serialized comment keeps its id, parent and author, nests its replies recursively, lists its replies one for one in id order, and has an empty reply list exactly when no comment names it as parent |
| PostSerializers.ThreadListsEveryReply | post/serializers.py:36-44 | every comment that names it as parent is listed under it |
| PostSerializers.Threads | post/serializers.py:43 | `many=True`: one serialized comment per id, in order |
| PostSerializers.PostComments | post/serializers.py:128-134 | the comments of a post are all top-level |
| PostSerializers.PostCommentsAreTopLevel | post/serializers.py:128-134 | a comment is listed exactly when it belongs to the post and answers no comment |
| PostSerializers.PostRecipients | post/serializers.py:102-109 | an academy's post goes to its followers, a player's post to its friends |
| Store.AnnounceJob | post/serializers.py:98-100 | a notification job of the given type from the author to the receivers, with text "<username> added a new <what>" and a link ending in the row's id; it is the job of both new posts and new trials |
| Store.AnnouncementsDiffer | post/serializers.py:100 | announcements of two different rows link to different pages |
| PostSerializers.CreatePost | post/serializers.py:88-113 | the post is saved with the next id and exactly one notification job is queued for its recipients |
| PostViews.Toggle | post/views.py:70-79 | the like of this user on this post is flipped and no other like changes |
| PostViews.ToggleTwice | post/views.py:70-79 | liking again after a like (or unlike) restores the table: the like action is its own inverse |
| PostViews.LikePost | post/views.py:63-86 | an unknown post answers 404 "No post found" with no change; otherwise the like is flipped, answering 200 "unliked" when it existed and 201 "liked" when it did not |
| PostViews.Parent | post/views.py:95-106 | a missing or falsy `parent` means a top-level comment; a truthy one names the comment whose key `int()` reads from it |
| PostViews.TextParentKeys | post/views.py:100-106 | a parent sent as text with whitespace around its digits names that comment; a negative one names no comment and answers 400 "commment not found to reply" |
| PostViews.CommentDecision | post/views.py:93-120 | the answer is "post missing" exactly for an unknown post; an accepted comment has valid data, and its parent, if any, is a comment of the same post |
| PostViews.ParentMissingIff | post/views.py:100-106 | a parent key is refused with "commment not found to reply" exactly when it names no comment of this post |
| PostViews.CommentStatus | post/views.py:108-120 | the status is 201 exactly for an accepted comment |
| PostViews.CommentOn | post/views.py:89-120 | the outcome is the decision; only an accepted comment is stored, with the next id, the author, the post and the parent |
| PostViews.PersonalPosts | post/views.py:142-149 | the personal posts are exactly the viewer's own, its friends' and its followed academies' posts |
| PostViews.FeedPool | post/views.py:151-171 | the feed holds every personal post and otherwise only recommended ones |
| PostViews.FeedPoolMixing | post/views.py:151-171 | recommendations are mixed in exactly when there are fewer than 10 personal posts |
| Common.PageNumber | post/views.py:129 | `int()` of the page parameter, as both paginated views read it: no page gives 1; otherwise the value `int()` reads from the text, and ValueError exactly when it reads none |
| Common.PageNumberOfPrinted | post/views.py:129 | a page sent as `str(n)` reads back as `n` |
| PostViews.HomeFeedPage | post/views.py:129-234 | a negative page raises; page `p` answers the first `min(10p, n)` posts, `has_more` exactly when some are left, and next page `p + 1` |
| PostViews.FeedCumulative | post/views.py:173-176 | each page repeats the previous page's posts and adds at most 10, and at least one while more are left |
| PostViews.FeedComplete | post/views.py:233 | a page with `has_more` false holds every post |
| PostViews.PreferredTrials | post/views.py:207-219 | the preferred trials are the upcoming active ones of a followed academy, a sport of the player or the player's district |
| PostViews.TrialIds | post/views.py:224 | the ids of the listed trials |
| PostViews.OtherActive | post/views.py:222-226 | the top-up trials are the upcoming active ones not already chosen |
| PostViews.Take | post/views.py:217-225 | a slice `[:k]` keeps the first `min(k, n)` items |
| PostViews.HomeTrials | post/views.py:206-228 | at most three trials are shown |
| PostViews.HomeTrialsShape | post/views.py:206-228 | at most 3 trials, all upcoming and active, starting with the first preferred ones, and no top-up trial repeats a preferred one |
| PostViews.Interactions | post/views.py:264-269 | at most the number of likes and comments, and 0 for an academy without posts |
| PostViews.ToggleInteractions | post/views.py:264-269 | a like flip on one of the academy's posts moves its interaction count by one in the matching direction; on another post it changes nothing |
| PostViews.CommentInteractions | post/views.py:264-269 | a new comment adds one interaction exactly when it is on one of the academy's posts |
| RealTimeModels.NewChat | real_time/models.py:17-26 | a new chat row is unread and carries the given sender, receiver, message and thread |
| RealTimeModels.NewNotification | real_time/models.py:54-65 | a new notification is unseen and carries the given sender, receiver, type, text and link |
| RealTimeModels.NewestFirst | real_time/models.py:68-69 | `ordering = ["-created_at"]`: the rows in reverse creation order |
| RealTimeModels.NewestFirstAppend | real_time/models.py:68-69 | a new row comes first in that order |
| RealTimeViews.ThreadName | real_time/views.py:79-80 | a name `chat_` followed by two decimal ids |
| RealTimeViews.ThreadNameSymmetric | real_time/views.py:79-80 | `chat_<low>_<high>` does not depend on which of the two users opens the thread |
| RealTimeViews.ThreadNameInjective | real_time/views.py:79-80 | two pairs of users share a thread name only when they are the same pair |
| RealTimeViews.Opened | real_time/views.py:83-93 | after opening, the thread exists |
| RealTimeViews.OpenedIdempotent | real_time/views.py:83-93 | opening an existing thread again adds nothing; opening adds at most one row |
| RealTimeViews.TextLessTotal | real_time/views.py:79 | Python's order on strings is strict and total |
| RealTimeViews.PyLess | real_time/views.py:79 | `<` compares two numbers (booleans as 0 and 1) by value and two strings by code points, and raises TypeError for every other pair |
| RealTimeViews.SortedPair | real_time/views.py:79 | `sorted` of two values makes its one comparison, `y < x`, swaps exactly when it holds, and raises when it raises |
| RealTimeViews.ThreadNameOf | real_time/views.py:79-80 | the thread name exists exactly when the two ids can be sorted, and the error is the comparison's |
| RealTimeViews.ThreadNameOfNaturals | real_time/views.py:79-80 | for ids sent as JSON naturals the name is `chat_<low>_<high>` of the numbers |
| RealTimeViews.ThreadNameOfSymmetric | real_time/views.py:79-80 | with both ids ints or both strings, the name does not depend on which user opens the thread |
| RealTimeViews.MissingOrMixedIdsRaise | real_time/views.py:75-79 | a missing id, or an int beside a string, makes `sorted` raise |
| RealTimeViews.TextIdsSortAsText | real_time/views.py:79-80 | ids sent as text sort as text: "9" and "10" give `chat_10_9`, while the same ids as ints give `chat_9_10` |
| RealTimeViews.UserIdOf | real_time/views.py:87-88 | `Users.objects.get(id=v)` finds the row whose key `int()` reads from the value; a value that is no key raises ValueError, null and a key without a row DoesNotExist |
| RealTimeViews.TextUserIds | real_time/views.py:87-88 | an id sent as text with surrounding whitespace or a `+` sign names the same row as the number, and a negative one names none |
| RealTimeViews.CreateThread | real_time/views.py:75-94 | an unsortable pair raises first; otherwise the answer is the thread name, it fails exactly when the thread is new and a user lookup raises, sender first, with no change, and a new thread gets one chat row from the sender's row to the receiver's |
| RealTimeViews.NumPages | real_time/views.py:43-44 | the paginator has at least one page and exactly enough pages of 50 for the messages |
| RealTimeViews.ListPage | real_time/views.py:37-58 | a page of at most 50 of the thread's messages with the total page count, or the paginator's error |
| RealTimeViews.ListThread | real_time/views.py:32-58 | a page that `int()` cannot read raises ValueError; otherwise only messages of the named thread (NULL for a missing name), at most 50 |
| RealTimeViews.ListThreadPages | real_time/views.py:33 | no page parameter gives page 1, and the text of `p` gives page `p` |
| RealTimeViews.ListPageShape | real_time/views.py:33-58 | a page answers exactly for `1 <= page <= total`; it reports the total, the reversed page number `total - page + 1`, `has_previous` exactly before the last requested page, and at most 50 messages |
| RealTimeViews.ListPageNewest | real_time/views.py:46-47 | page 1 holds the newest messages |
| RealTimeViews.ListPageHolds | real_time/views.py:37-49 | every message appears on the page its position gives, at its place |
| RealTimeViews.ChatPartners | real_time/views.py:105-108 | every sender to the user and receiver from the user is listed, and each listed user exchanged a message with the user |
| RealTimeViews.ChatPartnersIff | real_time/views.py:105-108 | a user is listed exactly when it sent a message to or received one from the current user; the relation is symmetric |
| RealTimeViews.MarkSeen | real_time/views.py:138-140 | only the row with that id becomes seen |
| RealTimeViews.MarkSeenOne | real_time/views.py:138-140 | with unique ids this changes exactly one row |
| RealTimeViews.MarkAsRead | real_time/views.py:128-141 | any existing notification, whoever received it, is marked seen with "notification"; an unknown id raises `DoesNotExist` with no change |
| RealTimeViews.MarkAllSeen | real_time/views.py:151-152 | every notification of the current user becomes seen and no other row changes |
| RealTimeViews.MarkAllSeenClears | real_time/views.py:151-155 | afterwards the user has no unseen notification |
| RealTimeViews.MarkAllSeenOthers | real_time/views.py:151-152 | other users' unseen counts do not change |
| RealTimeViews.MarkAllAsRead | real_time/views.py:144-155 | the rows become `MarkAllSeen` and the answer is "All notification marked as read" |
| RealTimeViews.WithoutMembers | real_time/views.py:167-168 | deletion keeps exactly the rows with another id |
| RealTimeViews.WithoutOne | real_time/views.py:167-168 | with unique ids exactly one row is removed |
| RealTimeViews.WithoutNone | real_time/views.py:167-168 | removing an id no row has changes nothing |
| RealTimeViews.Destroy | real_time/views.py:124-169 | 204 exactly when the notification exists and belongs to the current user, removing one row; 404 with no change otherwise |
| TrialModels.NewTrial | selection_trial/models.py:10-28 | a new trial takes the form's fields; an omitted flag takes its default: no participant limit, a registration fee, active |
| TrialModels.UniqueId | selection_trial/models.py:91-93 | the identifier ends in the two digits of the random number |
| TrialModels.TwoDigits | selection_trial/models.py:90 | a number from 10 to 99 is rendered in exactly two digits |
| TrialModels.UniqueIdDeterminesId | selection_trial/models.py:91-93 | for one name, the identifier determines the registration id and the number |
| TrialSignals.AssignUniqueId | selection_trial/models.py:87-94 | a first save without an identifier gives the row `<name without spaces><id><num>`; a null name raises with no change; a later save or a row with an identifier is left alone |
| TrialSignals.WithUniqueId | selection_trial/models.py:89-93 | the handler changes at most the identifier, always leaves one, and keeps an existing one |
| TrialSignals.AssignedOnce | selection_trial/models.py:89-94 | the handler's own second save changes nothing: the identifier is assigned once |
| TrialSignals.GeneratedIdsDiffer | selection_trial/models.py:91-93 | two registrations with the same name but different ids never receive the same identifier |
| UserAcademySerializer.Validate | user_profile/serializers/useracademy_serializer.py:77-90 | passes exactly when `start_month`, `start_year`, `sport` and `position` are all present; otherwise reports the first missing one's message; a passing current position has its end date blanked, nothing else changes |
| UserAcademySerializer.ValidateIdempotent | user_profile/serializers/useracademy_serializer.py:77-90 | validating validated data again gives the same data |
| UserAcademySerializer.ValidateAcademy | user_profile/serializers/useracademy_serializer.py:92-95 | an academy is refused with "Enter valid academy" exactly when it is null |
| UserAcademySerializer.IsValid | user_profile/serializers/useracademy_serializer.py:77-95 | a null academy is refused before the object-level check; otherwise the object-level check decides |
| UserAcademySerializer.Text | user_profile/serializers/useracademy_serializer.py:99 | a text column takes the value when it is a string |
| UserAcademySerializer.AcademyRef | user_profile/serializers/useracademy_serializer.py:99 | the academy column refers to an id exactly when one is given |
| UserAcademySerializer.Create | user_profile/serializers/useracademy_serializer.py:97-99 | one row with the next id, owned by the requesting user, carrying the validated fields |
| UserAcademySerializer.CurrentHasNoEnd | user_profile/serializers/useracademy_serializer.py:78-81 | a validated current position has an empty end month and year |
| ProfileViews.Assigned | user_profile/views.py:46-62 | a field takes the request's value exactly when its key is present |
| ProfileViews.EditedUser | user_profile/views.py:46-62 | only phone, username and dob can change, each only when its key is present |
| ProfileViews.EditedProfile | user_profile/views.py:55-60 | only state, district and bio can change, each only when its key is present |
| ProfileViews.NoKeysNoEdits | user_profile/views.py:46-62 | a request without those keys changes neither row |
| ProfileViews.DropSports | user_profile/views.py:64 | the delete removes exactly this user's rows whose sport is in the dropped set and keeps every other row |
| ProfileViews.SyncSports | user_profile/views.py:65-68 | the loop only appends rows |
| ProfileViews.SyncSportsCovers | user_profile/views.py:65-68 | afterwards every listed sport has a row for the user |
| ProfileViews.SyncSportsAdds | user_profile/views.py:65-68 | every added row is the user's and names a listed sport, and no row is duplicated |
| ProfileViews.SyncSportsOthers | user_profile/views.py:65-68 | no other user's rows change |
| ProfileViews.AddMissingSports | user_profile/views.py:65-68 | the loop computes `SyncSports` |
| ProfileViews.ProfileOf | user_profile/views.py:50-53 | the existing profile, or a new empty one |
| ProfileViews.UpdateProfile | user_profile/views.py:40-86 | an anonymous request answers "service not available" with no change; otherwise the sports are synchronised, and the edits are saved with "User details updated successfully" or, when saving the user fails, none is while the created profile stays, with "some error" |
| ProfileViews.SportsAfterUpdate | user_profile/views.py:63-68 | when the sport table holds no duplicate rows before the update, every submitted sport has exactly one row for the user afterwards (signup can store duplicates from a repeated `sport[]` entry, and the update keeps them) |
| ProfileViews.UploadPhoto | user_profile/views.py:91-134 | invalid data or no profile answers "Photo updation failed"; a profile photo wins over a cover photo; neither answers "No valied data updation failed"; only the chosen photo changes |
| ProfileViews.DeletePhoto | user_profile/views.py:137-169 | no profile answers "Photo deletion failed"; `type` "profile" or "cover" clears that photo only; any other type answers "No valid data photo deletion Failed" with no change |
| TrialSerializers.RequirementRows | selection_trial/serializers.py:81-83 | one requirement row per non-empty string, each naming the trial: a non-empty text has as many rows as it was submitted times |
| TrialSerializers.AddRequirements | selection_trial/serializers.py:81-83 | the loop creates exactly `RequirementRows` |
| TrialSerializers.CreateTrial | selection_trial/serializers.py:74-94 | a form carrying its own academy raises the duplicate-keyword error with no change; otherwise one active trial with the next id owned by the requester, its requirement rows, and one job for the academy's followers |
| TrialSerializers.CreatedTrialIsActive | selection_trial/serializers.py:77-78 | a created trial is active and belongs to the requesting academy whatever the form said |
| TrialSerializers.ValidateRegistration | selection_trial/serializers.py:143-162 | refused with "Already registered in this trial " exactly when the player already has a registration in the trial; otherwise the form passes unchanged |
| TrialSerializers.NewRegistration | selection_trial/serializers.py:166 | the inserted row has the next id, the form's player, trial and fields, and the status "registered" |
| TrialSerializers.DetailRows | selection_trial/serializers.py:169-174 | exactly one details row per answer, in order, each naming the registration and carrying the answer's requirement and value |
| TrialSerializers.CreateError | selection_trial/serializers.py:164-166 | `create` raises exactly when the data sets a status of its own or the handler meets a null name without an identifier |
| TrialSerializers.CreateRegistration | selection_trial/serializers.py:164-176 | a status in the data raises with no change; a null name leaves the row without identifier or details; otherwise the row with its identifier and its details rows |
| TrialSerializers.RegistrationShape | selection_trial/serializers.py:164-176 | an accepted registration is "registered", has an identifier, and every details row names it |
| TrialViews.PlayerCount | selection_trial/views.py:148 | the count never exceeds the number of registrations |
| TrialViews.CountAfterInsert | selection_trial/views.py:148 | inserting a registration raises its trial's count by one and leaves the other trials' counts alone |
| TrialViews.DropDetails | selection_trial/views.py:128 | deleting a registration removes exactly its details rows (the cascade) and keeps every other row |
| TrialViews.DropDetailsAppended | selection_trial/views.py:128-201 | deleting a registration also removes every details row just written for it |
| TrialViews.Admission | selection_trial/views.py:142-157 | a request passes exactly when the trial exists, the fields are valid, the player is not yet registered and, under a participant limit, the limit is set and not reached; a missing trial is the first check |
| TrialViews.Saved | selection_trial/views.py:160-164 | a paid trial's registration is saved with a pending payment; a free one as submitted |
| TrialViews.AdmittedInsert | selection_trial/views.py:141-205 | an admitted insertion keeps the tables keyed, keeps every trial within its limit and keeps one registration per player and trial |
| TrialViews.Enrol | selection_trial/views.py:159-205 | a free trial answers with the new registration; a paid one opens a checkout, or when the checkout fails deletes the registration and its details and answers "error in stripe payment"; a raising `create` changes nothing |
| TrialViews.DeleteRegistration | selection_trial/views.py:200-201 | deleting the registration just inserted, with its details rows, leaves both tables exactly as they were before the request |
| TrialViews.Register | selection_trial/views.py:140-205 | a stopped request changes nothing; an admitted one inserts as `Enrol` says; the tables stay keyed, within every participant limit and at one registration per player and trial |
| TrialViews.FullTrialAdmitsNobody | selection_trial/views.py:151-154 | a trial whose limit is reached refuses every further request with "Participant limit exceeded" |
| TrialViews.Mine | selection_trial/views.py:119-122 | exactly the ids of the player's registrations in the trial |
| TrialViews.PlayerDetails | selection_trial/views.py:117-131 | no registration answers 204; more than one raises; an unpaid registration of a paid trial is deleted with its details and answers 204; otherwise the registration is returned and nothing changes |
| TrialViews.OnePerPlayerNoFailure | selection_trial/views.py:122 | with one registration per player and trial the lookup never finds several rows |
| TrialViews.ConfirmPayment | selection_trial/views.py:239-246 | an unknown id raises with no change; otherwise only that registration's payment becomes "confirmed", with "Payment confirmed and Registration Completed" |
| TrialViews.ConfirmedIsKept | selection_trial/views.py:123-129 | a confirmed registration is never dropped by the lookup |
| TrialViews.StatusText | selection_trial/views.py:234-235 | the stored status is the submitted text for a string, the decimal text for an int and "True" or "False" for a boolean, and NULL exactly for null (and for a list, see Left out) |
| TrialViews.StatusTextOfNumbers | selection_trial/views.py:234-235 | a number and its decimal text are stored alike, and different numbers are stored differently |
| TrialViews.SetStatus | selection_trial/views.py:218-236 | an unknown id, a missing `status` or a trial without academy raises with no change; otherwise one status mail saying whether the player was selected is queued, and the status is stored exactly when it fits its 200-character column; a longer one raises on save with the mail kept and the row unchanged |
| TrialViews.RegistrantEmails | selection_trial/views.py:105-107 | the list is empty exactly when no registration of the trial exists below the id bound |
| TrialViews.CancelTrial | selection_trial/views.py:102-114 | an unknown trial raises with no change; a trial with registrants but no academy raises with no change; otherwise the trial becomes inactive and, when it has registrants, one cancellation mail names them, the trial, the academy and the reason |
| TrialViews.MailedIffRegistrants | selection_trial/views.py:107-111 | the cancellation mail is sent exactly when the trial has registrations |
| TrialViews.TrialPermission | selection_trial/views.py:27-32 | listing, retrieving and the registration lookup need a user or an admin; every other action needs an academy |
| TrialViews.TrialPermissionMeaning | selection_trial/views.py:27-32 | the read actions let everyone through; every other action lets through exactly the academies |
| AdminViews.ToggleActive | admin/views.py:122-144 | an unknown id answers "Updation failed" with no change; a truthy value activates the account when it is "active" and blocks it otherwise; a falsy value changes nothing; then "Updated successfully" |
| AdminViews.BlockedCannotLogin | admin/views.py:129-135 | a blocked account can never log in, as a player, an academy or an admin |
| AdminViews.ToggleIsCertified | admin/views.py:55-85 | a missing user or academy row answers "some error" with no change; a truthy value certifies the academy when it is "approve" and denies it otherwise, and queues one alert mail to the account; then "Certification updated successfully" |
| AdminViews.DeniedAcademyCannotLogin | admin/views.py:68-71 | a denied academy can no longer log in |
| AdminViews.Payments | admin/views.py:276-278 | at most one payment per registration whose trial charges a fee and is active |
| AdminViews.PaymentsIgnoreStatus | admin/views.py:276-278 | selection and payment status changes do not change the payments listed |
| AdminViews.Tally | admin/views.py:283-296 | the dictionary the loop builds over the first `n` payments, or the exception it raises; its meaning is stated by `TallyTotals` and `NoPaymentNoFees` |
| AdminViews.TallyTotals | admin/views.py:283-296 | the totals have one entry per academy paid to, under its own id and username, and a set total is the sum of that academy's fees |
| AdminViews.NoPaymentNoFees | admin/views.py:283-296 | an academy nobody paid to has no entry and a zero sum |
| AdminViews.Accounts | admin/views.py:271-298 | the loop computes `Tally`: its totals in the order the academies first appear, or the error it raises |

## Left out

- Sending mail, the random draw of the OTP (a parameter of `UsersTask.RunSendOtp`) and the texts of the mails. The jobs `send_alert`, `send_status_mail` and `send_trial_cancellation_mail` are recorded in `jobs` with their arguments but not run; `send_otp` is recorded in `jobs` and its table effect is `UsersTask.RunSendOtp`, which a caller applies to the job's address. selection_trial/tasks.py and admin/task.py are not part of this model.
- `ResendOtp.post` (users/views.py:310-328) is not modelled: it only queues `send_otp` for the submitted value, whose effect is `UsersTask.RunSendOtp`.
- Concurrency. The asynchronous consumers and the Celery worker are modelled as sequential steps, so interleavings of requests are not modelled.
- Foreign services are inputs:
  - the Stripe checkout (`checkoutOk`; amounts and URLs are not modelled);
  - `jwt.decode` (a `TokenCheck` value; signature checking and expiry are not modelled);
  - Google token verification (its claims are an input);
  - JWT issuing (reduced to the id of the account that logs in);
  - `validate_email` and the serializers' field validation (passed in as verdicts);
  - the database-side text matching of the search.
- The random number in a registration's `unique_id`. It is a parameter in 10..99.
- Timestamps. Creation time is the position of a row in its append-only table. Registrations are read in id order.
- Removing photo files from storage in `UpdatePhoto`. Only the profile fields are modelled.
- `ProfileData.post` with a `sport` key: the bulk delete excludes the names in `request.data['sport']`. That set is a parameter (`dropped`) because its value depends on how the multipart body is parsed. Other request fields are text or JSON null.
- The `QueryDict.setlist` of the academy's sports in `Signup.post`, and its mutability. The sport list is a field of the form.
- The read-only listing views:
  - `TrialViewSet.get_queryset` and `retrieve`;
  - `list_players_in_trial`;
  - the admin dashboard statistics and percentages;
  - `PlayerManage`, `AcademyManage` and the top-academy listing;
  - every academy dashboard count except interactions;
  - the list and retrieve actions of the post and notification view sets.
- `PlayersInTrialViewSet.destroy`, which is the framework's own delete.
- Integrity errors carry the exception's name only, not the database's message.
- UserSerializer.Create: a refused insert leaves `nextId` as it was, where a database sequence may skip a value.
- UserSerializer.Create: the serializer's `friends` field is not part of the payload. A request listing existing user ids under `friends` makes `ModelSerializer.create` add those friendships to the new account; the model writes no friendship rows.
- TrialModels.NewTrial: a trial keeps only the fields the core reads; state, location, venue, dates, time, image and description are not modelled.
- TrialSerializers.CreateRegistration: the answers' requirement names are not checked against the trial's requirements, as the source does not check them.
- TrialSerializers.CreateRegistration: every answer carries a requirement and a value. In the source an answer without the `requirement` or `value` key raises KeyError inside the atomic block, which discards the registration.
- AdminViews.Accounts: the payments are read in registration id order; the source's queryset has no declared order.
- Store.FollowerIds: the followers come in increasing id order; the `values_list` queryset has no declared order.
- Store.FriendIds: the friends come in increasing id order; the `friends` queryset has no declared order.
- Common.Lower: only ASCII letters are lowered. Python's `str.lower` also lowers other letters ("É" to "é"), so `UsersModels.NormalizeEmail` keeps the capitals of a non-ASCII domain. The bearer-scheme test of `JwtMiddleware.Gate` is unaffected, since no other character lowers into a letter of "bearer".
- TrialViews.StatusText: Django stores a list status as its Python `str()`; the model does not render lists and stores NULL.
- Column widths (`max_length`) are checked only for the status column that `partial_update` writes. No other write checks a column's width.
- RealTimeViews.CreateThread: Python compares two lists element by element; the model treats a list id as raising TypeError, like other pairs that cannot be compared. Python's `int()` also accepts `_` separators and non-ASCII digits in a string id, which the model reads as no key (see Common.KeyOf). The ValueError text is shortened to its first words.
- Consumers.PersonalChatConsumer.Receive: the frame is given already decoded, with a text message and natural ids. The following are not modelled:
  - a frame that `json.loads` cannot parse, or one without "message", "sender" or "receiver", which raises and closes the socket;
  - a message that is not text;
  - an id sent as text such as "05", which finds the user, but whose alert goes to the group `notification_05`, which no notification socket joins.
- UsersViews.PasswordMatches: a password sent as a JSON list is refused; Django would compare the list's Python `str()`, which the model does not render.
- TrialSerializers.RequirementRows: the requirements are given as strings. `additionalRequirements` is an unvalidated `ListField`, so a falsy non-string item is skipped and another one is stored as its `str()`; the model does not take such items.
- Common.PageNumber: reads text through `Common.IntLiteral`, so Python's `int()` forms with `_` separators or non-ASCII digits are reported as ValueError.
- Common.KeyOf: a string key is read through `Common.IntLiteral`, which takes surrounding whitespace and a `+` or `-` sign but not `_` separators (`"1_0"`) or non-ASCII digits; such ids are read as no key, where Django's `int()` reads a number.
- Common.IntLiteral: ASCII digits only, without `_` separators; `int()`'s other digit forms are read as ValueError.
