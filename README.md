# A verified model of the HEU RAG chat service

The system is a retrieval-augmented chat service for the Harbin Engineering
University campus: users register with an `@hrbeu.edu.cn` address, log in,
keep knowledge bases of uploaded documents, and chat with a language model
that answers from the chunks retrieved out of the selected knowledge base.
It exists twice on the server side — a Spring (Java) backend and an older Go
(gin) backend — and has a React front end.  This project models, in Dafny,
the core of all three:

- the Java backend's endpoints and services: login, registration,
  verification codes and password reset (`AuthController`, `EmailService`,
  `EmailValidator`), account settings (`UserSettingsController`), the JWT
  filter (`JwtAuthenticationFilter`), the error envelope and the global
  exception handler (`CommonResult`, `GlobalExceptionHandler`), the
  Snowflake id generator, conversations and their messages
  (`ConversationController`), the streaming chat (`ChatController`,
  `ChatRequest`, `ChatService`), knowledge bases and documents
  (`KnowledgeBaseController`, `KnowledgeBaseService`, `DocumentService`)
  and the metadata sanitizer in front of the Milvus vector store
  (`MilvusSanitizer`);
- the Go backend's account handlers and helpers (`GoUserHandler`,
  `GoUtils`), its file-type table (`GoFileUtils`) and its two streaming chat
  handlers (`GoChat`, `GoChatHandler`) over a modelled Mongo store
  (`GoStore`) and response writer (`GoHttp`);
- the front end's stream parser and message helpers (`ChatClient`), the
  document page's label lookups (`DocumentUtils`) and the login reminder
  (`UserUtils`).

The relational and document stores are one `Store.Database` object whose
tables are sequences the repository operations filter, find in and upsert
into; Redis is a `map<string, string>` field of `EmailService.EmailService`.
What the program draws from outside — random codes, UUIDs, the clock,
BCrypt and JWT results, the embedding model's answers, the vector search
hits, the language model's stream — enters as parameters, so every
operation is a deterministic function or method of its inputs.  Errors that
the Java code throws are `Result.Err` values carrying an
`Errors.Exception`, which `GlobalExceptionHandler.Handle` turns into the
HTTP answer.

Java sources sit under `src/main/java/com/heu/rag/`, the Go backend under
`backend/`, the front end under `frontend/src/`.

Two handlers are mapped to `GET /api/user/info` (in `AuthController` and in
`UserSettingsController`, both under `/api`).  Spring's start-up check of
ambiguous mappings is not modelled; both handlers are, and
`UserSettingsController.UserInfoHandlersCompared` states where their
answers differ.

## Model

| member | source | states |
|---|---|---|
| AuthController.UserByAccount | src/main/java/com/heu/rag/core/controller/AuthController.java:56-64 | an account containing `@` is looked up by email, any other by username; a hit is a user on record with that email or username, a miss means no user has it |
| AuthController.Login | src/main/java/com/heu/rag/core/controller/AuthController.java:49-82 | a missing account or password is answered 400; success exactly when the account names a user whose stored hash matches the password, and then the data is the token issued for that user's id and username; every other failure is the same 401 answer |
| AuthController.LoginHidesWhichCheckFailed | src/main/java/com/heu/rag/core/controller/AuthController.java:66-75 | an unknown account and a known account with a wrong password get identical answers |
| AuthController.RegisterCheck | src/main/java/com/heu/rag/core/controller/AuthController.java:99-144 | a missing field is refused first; passing all checks means every field is present, the email is an `@hrbeu.edu.cn` address, a non-empty code was verified when verification is on, and neither the username nor the email is taken; every refusal has code 400 |
| AuthController.UsernameCheckedBeforeEmail | src/main/java/com/heu/rag/core/controller/AuthController.java:134-144 | when the username is taken the answer is "Username already exists" even if the email is taken too |
| AuthController.Register | src/main/java/com/heu/rag/core/controller/AuthController.java:95-159 | a refused registration changes no user; an accepted one, with an id no user has, appends exactly the user with the hashed password and answers the token for the new id; the code is consumed exactly when the code check is reached; the other tables are unchanged and username and email uniqueness is kept |
| AuthController.RegisteredUserCanLogin | src/main/java/com/heu/rag/core/controller/AuthController.java:146-158 | after a registration the new user logs in by username with the same password and gets the token for the new id |
| AuthController.SendEmail | src/main/java/com/heu/rag/core/controller/AuthController.java:166-187 | an empty or missing email and a non-campus address are refused without touching the store; success exactly when the address is valid and neither the store nor the mail fails; a stored code is the six-digit code drawn, under the address's key |
| AuthController.CheckCode | src/main/java/com/heu/rag/core/controller/AuthController.java:195-212 | missing fields are refused; success exactly when the stored code matches, and then the code is consumed and the reset token is stored for the address and returned; a failure leaves the store unchanged |
| AuthController.ResetPassword | src/main/java/com/heu/rag/core/controller/AuthController.java:219-247 | missing fields and an unknown token are refused; a known token whose user exists gets the new hash saved and the token deleted, after which the token is void; every failure changes nothing; other tables and uniqueness are kept |
| AuthController.PasswordResetFlow | src/main/java/com/heu/rag/core/controller/AuthController.java:195-247 | the mailed code is accepted once and no more; the token it is exchanged for names the address it was mailed to; after deletion the token names nobody |
| AuthController.GetUserInfo | src/main/java/com/heu/rag/core/controller/AuthController.java:255-271 | success exactly when the principal carries a user id, with that user's name; otherwise the 401 envelope; a missing user is the 404 envelope; it never throws |
| UserSettingsController.UsernameFormat | src/main/java/com/heu/rag/core/controller/UserSettingsController.java:72-79 | accepted exactly when the name is 3 to 20 UTF-16 units long and all letters, digits or underscores; the length is checked first |
| UserSettingsController.AcceptedUsernameIsShortAscii | src/main/java/com/heu/rag/core/controller/UserSettingsController.java:72-79 | an accepted name is 3 to 20 characters of ASCII |
| UserSettingsController.UsernameChangeCheck | src/main/java/com/heu/rag/core/controller/UserSettingsController.java:65-84 | a missing or blank name is "Username cannot be empty"; passing means the trimmed name has an accepted format (and is not taken); every refusal has code 400 |
| UserSettingsController.OwnNameIsTaken | src/main/java/com/heu/rag/core/controller/UserSettingsController.java:81-84 | asking for one's own current name is refused as already taken |
| UserSettingsController.ChangeUsername | src/main/java/com/heu/rag/core/controller/UserSettingsController.java:61-95 | an unauthenticated call throws; a refused name is answered by the check; a missing user throws not-found; otherwise the caller's record gets the trimmed name and nothing else changes; uniqueness is kept |
| UserSettingsController.EmailChangeCheck | src/main/java/com/heu/rag/core/controller/UserSettingsController.java:106-121 | a missing or blank email is refused; passing means the trimmed address is a campus address (and is not taken); every refusal has code 400 |
| UserSettingsController.ChangeEmail | src/main/java/com/heu/rag/core/controller/UserSettingsController.java:102-132 | as ChangeUsername, for the trimmed email address |
| UserSettingsController.GetUserInfo | src/main/java/com/heu/rag/core/controller/UserSettingsController.java:139-148 | throws the authentication error, or not-found for a missing user; succeeds exactly when the user exists |
| UserSettingsController.UserInfoHandlersCompared | src/main/java/com/heu/rag/core/controller/UserSettingsController.java:139-148 | the two `/user/info` handlers succeed on the same calls with the same answer; a bad principal is an envelope with code 401 in one and an HTTP 400 in the other; a missing user is 404 in both |
| UserSettingsController.DeleteAllChatRecords | src/main/java/com/heu/rag/core/controller/UserSettingsController.java:160-185 | an unauthenticated call changes nothing; otherwise the caller's conversations and their messages are gone and every other record is kept |
| UserSettingsController.DeleteDocumentsOfEach | src/main/java/com/heu/rag/core/controller/UserSettingsController.java:211-231 | the documents of each listed base are deleted and no other record changes |
| UserSettingsController.DeleteAccount | src/main/java/com/heu/rag/core/controller/UserSettingsController.java:192-244 | an unauthenticated call changes nothing; otherwise the caller's messages and conversations are gone; when the user exists, the documents of their bases, the bases and the user record are gone too and everything else is kept; success exactly when the user existed; a missing user is not-found, reported after the deletions, whose transaction rollback restores the bases, documents and users while the conversations and messages (in MongoDB, outside the transaction) stay deleted |
| UserSettingsController.DeleteOwnedData | src/main/java/com/heu/rag/core/controller/UserSettingsController.java:197-235 | the deletions before the user record: exactly the caller's messages, conversations, documents of their bases and bases are removed |
| UserSettingsController.NothingLeft | src/main/java/com/heu/rag/core/controller/UserSettingsController.java:193-244 | after deleting an account no conversation, message, base, document or user record of that user remains |
| ChatController.UserIdFromContext | src/main/java/com/heu/rag/core/controller/ChatController.java:29-35 | the id of a principal that carries one; otherwise the "Unauthorized: Invalid authentication" illegal-argument error |
| ChatController.NewMessage | src/main/java/com/heu/rag/core/controller/ChatController.java:44-64 | an unauthenticated call is refused; a null or blank query gets the single empty-query error frame; a service error is refused; otherwise each event becomes one `data:` frame in order, a failure with a message adds one error frame built as written (only `"` escaped), and a failure without one breaks the stream off |
| ChatController.BlankQueryIgnoresService | src/main/java/com/heu/rag/core/controller/ChatController.java:53-56 | a blank query's answer does not depend on what the service would stream |
| ChatController.MissingTextIsEmptyQuery | src/main/java/com/heu/rag/core/controller/dto/ChatRequest.java:50-66 | a message without a string `content.text` is treated as an empty query |
| ChatController.EventsWellFormed | src/main/java/com/heu/rag/core/service/ChatService.java:249-262 | every event the chat stream emits fits on one `data:` line |
| ChatController.ErrorFrameAsWritten | src/main/java/com/heu/rag/core/controller/ChatController.java:61-63 | the frame as written agrees with the corrected one on every message without a backslash or a control character |
| ChatController.QuoteEscapeSuffices | src/main/java/com/heu/rag/core/controller/ChatController.java:61-63 | on such a message, escaping only the quote is the same as escaping every character a JSON string needs |
| ChatController.ErrorPayload | src/main/java/com/heu/rag/core/controller/ChatController.java:61-63 | the corrected error payload fits on one `data:` line and its message field decodes back to the exception's message |
| ChatController.ErrorFrame | src/main/java/com/heu/rag/core/controller/ChatController.java:61-63 | the corrected error frame starts with `data: `, ends with a blank line and carries exactly that payload, with no newline inside |
| ChatController.ErrorFrameAsWrittenBreaks | src/main/java/com/heu/rag/core/controller/ChatController.java:61-63 | as written, a message ending in a backslash escapes the closing quote, so the message field does not decode |
| ChatController.ErrorFrameAsWrittenNewline | src/main/java/com/heu/rag/core/controller/ChatController.java:61-63 | as written, a message with a newline is sent unescaped and splits the frame |
| ChatController.AnswerReachesClient | src/main/java/com/heu/rag/core/controller/ChatController.java:58-59 | the frames of a completed answer reach the browser's stream decoder as exactly the service's events, in order, with nothing left buffered |
| ChatRequest.GetMessageText | src/main/java/com/heu/rag/core/controller/dto/ChatRequest.java:50-66 | no message gives no text; a text is read only from a message, and a `content` that is an object without a string `text` gives none |
| ChatRequest.ClientMessageText | src/main/java/com/heu/rag/core/controller/dto/ChatRequest.java:50-66 | the message shape the browser sends reads back as its text |
| CommonResult.Success | src/main/java/com/heu/rag/common/Result.java:23-25 | a success envelope with message "success" and the data |
| CommonResult.SuccessWith | src/main/java/com/heu/rag/common/Result.java:30-32 | a success envelope with the given message and data |
| CommonResult.Error | src/main/java/com/heu/rag/common/Result.java:37-39 | a failure envelope with code 500, the message and no data |
| CommonResult.ErrorCode | src/main/java/com/heu/rag/common/Result.java:44-46 | an envelope with the given code and message and no data |
| CommonResult.ErrorFactoriesAgree | src/main/java/com/heu/rag/common/Result.java:23-46 | `error(msg)` is `error(500, msg)`; an envelope is a success exactly when its code is 200 |
| GlobalExceptionHandler.GenericMessage | src/main/java/com/heu/rag/config/GlobalExceptionHandler.java:42-52 | never empty; the cause's non-empty message wins, then the exception's, then the fixed internal-error text |
| GlobalExceptionHandler.Handle | src/main/java/com/heu/rag/config/GlobalExceptionHandler.java:17-56 | the body code equals the HTTP status and carries no data; not-found is 404, illegal argument 400, upload too large 413, anything else 500, each status for exactly its kind; the first two pass their message through |
| GlobalExceptionHandler.HandledMessages | src/main/java/com/heu/rag/config/GlobalExceptionHandler.java:17-56 | only a not-found or illegal-argument exception without a message gets a null message; every 5xx answer has a non-empty message |
| EmailService.KeysDisjoint | src/main/java/com/heu/rag/core/service/EmailService.java:48-151 | a code key never collides with a token key; the token key of an email collides with a token's reverse key only for the email `value:` followed by that token |
| EmailService.VerificationCode | src/main/java/com/heu/rag/core/service/EmailService.java:162-166 | six ASCII digits whose value is 100000 plus the draw, so between 100000 and 999999 |
| EmailService.VerifyConsumesCode | src/main/java/com/heu/rag/core/service/EmailService.java:75-93 | a matching code no longer matches after verification; a failed verification leaves the store as it was; no other key changes |
| EmailService.StoredCodeVerifies | src/main/java/com/heu/rag/core/service/EmailService.java:42-93 | right after a code is stored, a guess matches exactly when it is that code |
| EmailService.IssuedTokenVerifies | src/main/java/com/heu/rag/core/service/EmailService.java:101-143 | a token just issued for an email verifies as that email's |
| EmailService.SupersededTokenRejected | src/main/java/com/heu/rag/core/service/EmailService.java:101-132 | after a second token is issued for the same email, the first no longer verifies and the second does |
| EmailService.DeletedTokenRejected | src/main/java/com/heu/rag/core/service/EmailService.java:150-157 | after deletion the email's stored token verifies for nobody |
| EmailService.EmailService.SendVerificationCode | src/main/java/com/heu/rag/core/service/EmailService.java:42-66 | answers true exactly when neither the store nor the mail fails; a stored code is the drawn code under the email's code key, and a failed store leaves the store unchanged |
| EmailService.EmailService.VerifyCode | src/main/java/com/heu/rag/core/service/EmailService.java:75-93 | true exactly when the stored code matches, and the code is deleted on a match |
| EmailService.EmailService.GenerateResetToken | src/main/java/com/heu/rag/core/service/EmailService.java:101-109 | returns the drawn token, stored under the email's token key and under the token's reverse key |
| EmailService.EmailService.StoreResetTokenMapping | src/main/java/com/heu/rag/core/service/EmailService.java:140-143 | the token's reverse key now names the email and nothing else changes |
| EmailService.EmailService.VerifyResetToken | src/main/java/com/heu/rag/core/service/EmailService.java:117-132 | an email is returned only when the token's reverse key names it and that email's token key holds the same token |
| EmailService.EmailService.DeleteResetToken | src/main/java/com/heu/rag/core/service/EmailService.java:150-157 | the email's token key is gone, with the reverse key of the token it held |
| EmailValidator.IsValidHrbeuEmail | src/main/java/com/heu/rag/core/util/EmailValidator.java:10-23 | null and the empty string are rejected; otherwise the pattern decides |
| EmailValidator.AcceptsExactly | src/main/java/com/heu/rag/core/util/EmailValidator.java:10-23 | a local part followed by `@hrbeu.edu.cn` is accepted exactly when the local part is non-empty and made of letters, digits and `._%+-` |
| EmailValidator.AcceptedHasOneAt | src/main/java/com/heu/rag/core/util/EmailValidator.java:10-23 | an accepted address contains exactly one `@` and ends in the campus domain |
| EmailValidator.UppercaseDomainRejected | src/main/java/com/heu/rag/core/util/EmailValidator.java:10-23 | the domain is matched case-sensitively: an upper-case domain is rejected |
| JwtAuthenticationFilter.PublicFrom | src/main/java/com/heu/rag/core/filter/JwtAuthenticationFilter.java:96-103 | true exactly when the path is one of the remaining public endpoints or lies below one |
| JwtAuthenticationFilter.IsPublicEndpoint | src/main/java/com/heu/rag/core/filter/JwtAuthenticationFilter.java:33-39 | true exactly when the path equals one of the five public endpoints or starts with one followed by `/` |
| JwtAuthenticationFilter.SegmentMatching | src/main/java/com/heu/rag/core/filter/JwtAuthenticationFilter.java:96-103 | `/api/login` and `/api/login/x` are public; `/api/loginx` and `/api/chat` are not |
| JwtAuthenticationFilter.TokenFromHeader | src/main/java/com/heu/rag/core/filter/JwtAuthenticationFilter.java:84-91 | no token exactly when the header has no text; otherwise the trimmed header |
| JwtAuthenticationFilter.BearerPrefixKept | src/main/java/com/heu/rag/core/filter/JwtAuthenticationFilter.java:84-91 | the `Bearer ` prefix is not stripped: it is part of the token handed to validation |
| JwtAuthenticationFilter.AuthenticatedAs | src/main/java/com/heu/rag/core/filter/JwtAuthenticationFilter.java:42-78 | a user id exactly when the path is protected, the header has a token that validates, and the token carries both a user id and a username; that id is the token's |
| JwtAuthenticationFilter.BlankHeaderNeverAuthenticates | src/main/java/com/heu/rag/core/filter/JwtAuthenticationFilter.java:53-56 | a missing or blank header never authenticates |
| JwtAuthenticationFilter.DoFilterInternal | src/main/java/com/heu/rag/core/filter/JwtAuthenticationFilter.java:42-78 | the rest of the chain runs exactly once; the header is read exactly on protected paths; an authenticated request installs the user id, any other leaves the context as it was |
| SnowflakeIdGenerator.ToLong | src/main/java/com/heu/rag/config/SnowflakeIdGenerator.java:88-91 | the result is a 64-bit signed value, equal to the input when the input already is one |
| SnowflakeIdGenerator.PackedFields | src/main/java/com/heu/rag/config/SnowflakeIdGenerator.java:15-32 | the sequence, machine id, datacenter id and timestamp offset read back from their bit fields |
| SnowflakeIdGenerator.PackedInjective | src/main/java/com/heu/rag/config/SnowflakeIdGenerator.java:88-91 | on one machine, equal ids mean equal timestamps and sequences |
| SnowflakeIdGenerator.IdInRange | src/main/java/com/heu/rag/config/SnowflakeIdGenerator.java:88-91 | within 2^41 ms of the epoch the id is non-negative, below 2^63 and not wrapped |
| SnowflakeIdGenerator.PackedMonotone | src/main/java/com/heu/rag/config/SnowflakeIdGenerator.java:88-91 | a later (timestamp, sequence) pair gives a larger id |
| SnowflakeIdGenerator.FirstAfter | src/main/java/com/heu/rag/config/SnowflakeIdGenerator.java:94-100 | the first clock reading after the given position that is later than the last timestamp |
| SnowflakeIdGenerator.NextCases | src/main/java/com/heu/rag/config/SnowflakeIdGenerator.java:70-92 | an earlier clock reading than the last timestamp is the clock-backwards error, and only that; a new millisecond resets the sequence; the same millisecond increments it, waiting for the next millisecond when it wraps to 0 |
| SnowflakeIdGenerator.NextMovesForward | src/main/java/com/heu/rag/config/SnowflakeIdGenerator.java:73-86 | every id generated comes strictly after the previous (timestamp, sequence) |
| SnowflakeIdGenerator.SuccessiveIdsIncrease | src/main/java/com/heu/rag/config/SnowflakeIdGenerator.java:70-92 | within the 41-bit timestamp range each id is larger than the previous one |
| SnowflakeIdGenerator.Clock.Now | src/main/java/com/heu/rag/config/SnowflakeIdGenerator.java:71 | the next clock reading, consumed |
| SnowflakeIdGenerator.Snowflake.constructor | src/main/java/com/heu/rag/config/SnowflakeIdGenerator.java:56-65 | a generator with the given ids, sequence 0 and last timestamp -1 |
| SnowflakeIdGenerator.Snowflake.TilNextMillis | src/main/java/com/heu/rag/config/SnowflakeIdGenerator.java:94-100 | reads the clock up to and including the first reading later than the last timestamp and returns it |
| SnowflakeIdGenerator.Snowflake.NextId | src/main/java/com/heu/rag/config/SnowflakeIdGenerator.java:70-92 | the id and new state are those of the next-id function; on the error the state is unchanged; the generator stays valid |
| SnowflakeIdGenerator.Create | src/main/java/com/heu/rag/config/SnowflakeIdGenerator.java:56-65 | an out-of-range machine id is refused first, then an out-of-range datacenter id; otherwise a fresh valid generator with those ids |
| SnowflakeIdGenerator.ParseLong | src/main/java/com/heu/rag/config/SnowflakeIdGenerator.java:41-46 | a parsed value lies in the 64-bit signed range and is the signed value of the digits; the parse fails exactly when no digits follow the optional sign, a character is not a digit, or the value is out of range |
| SnowflakeIdGenerator.ParseLongOfNat | src/main/java/com/heu/rag/config/SnowflakeIdGenerator.java:41-46 | the decimal text of a 64-bit natural parses back to it |
| SnowflakeIdGenerator.CreateDefault | src/main/java/com/heu/rag/config/SnowflakeIdGenerator.java:39-54 | with no properties both ids are 1; an unparsable property is a number-format error; otherwise the ids are the parsed properties, range-checked as in the two-argument constructor |
| Store.Upsert | src/main/java/com/heu/rag/core/repository/DocumentRepository.java:14 | `save`: the row is present afterwards, every other row was there before, and the table grows by at most one |
| Store.UpsertKeepsKeysUnique | src/main/java/com/heu/rag/core/repository/DocumentRepository.java:14 | `save` keeps primary keys unique: the saved row is the only one with its key and every row with another key is kept |
| Store.UpsertFreshFieldKeepsUnique | src/main/java/com/heu/rag/core/controller/AuthController.java:134-153 | saving a user whose username (or email) no one else has keeps that column unique |
| Store.UpsertSameFieldKeepsUnique | src/main/java/com/heu/rag/core/controller/AuthController.java:219-247 | re-saving a user with the same username (or email) keeps that column unique |
| Store.UpsertFreshAppends | src/main/java/com/heu/rag/core/repository/DocumentRepository.java:14 | `save` of a row whose key no stored row has appends exactly that row |
| Store.UpsertFreshTwice | src/main/java/com/heu/rag/core/repository/DocumentRepository.java:14 | saving a fresh row and then another version under the same key leaves the table with only the second version appended |
| Store.Database.InsertUser | src/main/java/com/heu/rag/core/controller/AuthController.java:146-153 | saving a new user, whose id no stored user has, appends it and changes no other table |
| Store.FilterKeepsKeysUnique | src/main/java/com/heu/rag/core/repository/ChatMessageRepository.java:13 | a deletion keeps the remaining keys unique |
| Store.CreatedAtAscendingIsTotal | src/main/java/com/heu/rag/core/controller/ConversationController.java:186-187 | ascending `createdAt` with nulls first is a total preorder, so the messages can be sorted by it |
| Store.Database.FindConversation | src/main/java/com/heu/rag/core/repository/ConversationRepository.java:14 | `findByConversationIdAndUserId`: a hit is a stored conversation with that id and owner; a miss means none exists |
| Store.Database.FindConversationById | src/main/java/com/heu/rag/core/repository/ConversationRepository.java:16 | `findByConversationId`: a hit has that id; a miss means no conversation has it |
| Store.Database.FindBase | src/main/java/com/heu/rag/core/repository/KnowledgeBaseRepository.java:12 | `findById` on bases: a hit has that id; a miss means no base has it |
| Store.Database.FindDocument | src/main/java/com/heu/rag/core/repository/DocumentRepository.java:14 | `findById` on documents: a hit has that id; a miss means no document has it |
| Store.Database.MessagesOf | src/main/java/com/heu/rag/core/repository/ChatMessageRepository.java:13 | `findByConversationId`: exactly the stored messages of that conversation |
| Store.Database.FindUser | src/main/java/com/heu/rag/core/controller/UserSettingsController.java:143-144 | `findById` on users: a hit has that id; a miss means no user has it |
| Store.Database.FindUserByEmail | src/main/java/com/heu/rag/core/controller/AuthController.java:60 | `findByEmail`: a hit has that email; a miss means no user has it |
| Store.Database.FindUserByUsername | src/main/java/com/heu/rag/core/controller/AuthController.java:63 | `findByUsername`: a hit has that username; a miss means no user has it |
| Store.Database.ConversationsOf | src/main/java/com/heu/rag/core/repository/ConversationRepository.java:12 | `findByUserId`: exactly the stored conversations of that user |
| Store.Database.BasesOf | src/main/java/com/heu/rag/core/repository/KnowledgeBaseRepository.java:13 | `findByUserId`: exactly the stored bases of that user |
| Store.Database.DocumentsOf | src/main/java/com/heu/rag/core/repository/DocumentRepository.java:15 | `findByBaseId`: exactly the stored documents of that base |
| Store.Database.DeleteMessagesOf | src/main/java/com/heu/rag/core/controller/ConversationController.java:118-119 | exactly the messages of the conversation are removed; the other tables are unchanged |
| Store.Database.DeleteConversation | src/main/java/com/heu/rag/core/controller/ConversationController.java:123 | exactly the conversation with that id is removed; the other tables are unchanged |
| Store.Database.DeleteConversationsOf | src/main/java/com/heu/rag/core/controller/ConversationController.java:167 | exactly the user's conversations are removed; the other tables are unchanged |
| Store.Database.DeleteDocument | src/main/java/com/heu/rag/core/repository/DocumentRepository.java:14 | exactly the document with that id is removed; the other tables are unchanged |
| Store.Database.DeleteDocumentsOf | src/main/java/com/heu/rag/core/controller/UserSettingsController.java:214-229 | exactly the base's documents are removed; the other tables are unchanged |
| Store.Database.DeleteBase | src/main/java/com/heu/rag/core/repository/KnowledgeBaseRepository.java:12 | exactly the base with that id is removed; the other tables are unchanged |
| Store.Database.DeleteBasesOf | src/main/java/com/heu/rag/core/controller/UserSettingsController.java:232-235 | exactly the user's bases are removed; the other tables are unchanged |
| Store.Database.DeleteUser | src/main/java/com/heu/rag/core/controller/UserSettingsController.java:238-240 | exactly the user with that id is removed; the other tables are unchanged |
| Store.Database.SaveConversation | src/main/java/com/heu/rag/core/repository/ConversationRepository.java:11 | the conversation is upserted by its id; the other tables are unchanged |
| Store.Database.SaveMessage | src/main/java/com/heu/rag/core/repository/ChatMessageRepository.java:12 | the message is upserted by its id; the other tables are unchanged |
| Store.Database.SaveBase | src/main/java/com/heu/rag/core/repository/KnowledgeBaseRepository.java:12 | the base is upserted by its id; the other tables are unchanged |
| Store.Database.SaveDocument | src/main/java/com/heu/rag/core/repository/DocumentRepository.java:14 | the document is upserted by its id and found by it afterwards; the other tables are unchanged |
| Store.Database.SaveUser | src/main/java/com/heu/rag/core/controller/AuthController.java:153 | the user is upserted by id; the other tables are unchanged |
| Store.Database.RollBack | src/main/java/com/heu/rag/core/controller/UserSettingsController.java:192 | a `@Transactional` method that throws restores the bases, documents and users it began with, while conversations and messages, kept in MongoDB, keep their writes; key uniqueness is kept |
| ConversationController.VerifyOwnership | src/main/java/com/heu/rag/core/controller/ConversationController.java:50-54 | found exactly when a conversation with that id belongs to the user; otherwise the not-found error |
| ConversationController.GetConversation | src/main/java/com/heu/rag/core/controller/ConversationController.java:61-68 | the authentication error, or the caller's own conversation with that id when there is one, and not-found otherwise |
| ConversationController.UpdatedAtDescendingIsTotal | src/main/java/com/heu/rag/core/controller/ConversationController.java:81-89 | the list comparator (later `updatedAt` first, nulls last) is a total preorder |
| ConversationController.SortedByUpdate | src/main/java/com/heu/rag/core/controller/ConversationController.java:81-89 | in a list sorted by it, a null time is followed only by null times and times never increase |
| ConversationController.SessionOf | src/main/java/com/heu/rag/core/controller/ConversationController.java:92-97 | a session carries the conversation's id and title, and a base id exactly when the conversation has one |
| ConversationController.SessionBaseIdReadsBack | src/main/java/com/heu/rag/core/controller/ConversationController.java:96 | the base id is sent as decimal digits that read back as the base id |
| ConversationController.QueryConversations | src/main/java/com/heu/rag/core/controller/ConversationController.java:75-104 | the authentication error, or the sessions of exactly the caller's conversations (a permutation of them) sorted by the list comparator |
| ConversationController.Format | src/main/java/com/heu/rag/core/controller/ConversationController.java:192-227 | ids, parent and creation time are copied; missing children become an empty list; a formatted body exactly when the message has one, with role defaulting to `user`, text to "", a finished status, no thinking and no model |
| ConversationController.FormatShowsSavedTurn | src/main/java/com/heu/rag/core/controller/ConversationController.java:201-224 | a user turn and an assistant turn saved by the chat service are shown with their role and text |
| ConversationController.CreatedAtDescendingIsTotal | src/main/java/com/heu/rag/core/controller/ConversationController.java:253-254 | descending `createdAt` is a total preorder |
| ConversationController.SortedEnds | src/main/java/com/heu/rag/core/controller/ConversationController.java:231-256 | the last message in ascending order and the first in descending order are both latest |
| ConversationController.LatestUnique | src/main/java/com/heu/rag/core/controller/ConversationController.java:231-256 | with distinct creation times there is only one latest message |
| ConversationController.QueryMessages | src/main/java/com/heu/rag/core/controller/ConversationController.java:178-238 | the authentication error; not-found exactly when the caller does not own the conversation; otherwise the messages sorted by ascending `createdAt` and formatted, one entry each, and a current id exactly when there are messages, naming a latest one |
| ConversationController.GetLatestId | src/main/java/com/heu/rag/core/controller/ConversationController.java:245-262 | the same errors as QueryMessages; otherwise an id exactly when there are messages, naming a latest one |
| ConversationController.LatestIdAgrees | src/main/java/com/heu/rag/core/controller/ConversationController.java:178-262 | with distinct creation times both endpoints fail together and name the same latest message |
| ConversationController.DeleteConversation | src/main/java/com/heu/rag/core/controller/ConversationController.java:111-127 | the authentication error or not-found leaves the store unchanged; success exactly when the caller owns it, and then exactly that conversation and its messages are gone |
| ConversationController.DeletedConversationIsGone | src/main/java/com/heu/rag/core/controller/ConversationController.java:117-123 | no message of the deleted conversation and no conversation with its id remains |
| ConversationController.RenameConversation | src/main/java/com/heu/rag/core/controller/ConversationController.java:134-147 | the authentication error or not-found leaves the store unchanged; otherwise only that conversation changes, getting the new title and the current time |
| ConversationController.DeleteMessagesOfEach | src/main/java/com/heu/rag/core/controller/ConversationController.java:160-164 | the messages of each listed conversation are removed and nothing else |
| ConversationController.DeleteChatsOf | src/main/java/com/heu/rag/core/controller/ConversationController.java:158-167 | exactly the user's conversations and their messages are removed |
| ConversationController.NoChatsLeft | src/main/java/com/heu/rag/core/controller/ConversationController.java:154-171 | afterwards no conversation of the user and no message of one of those conversations remains |
| ConversationController.DeleteAllChats | src/main/java/com/heu/rag/core/controller/ConversationController.java:154-171 | an unauthenticated call changes nothing; otherwise exactly the caller's conversations and their messages are gone |
| DocumentService.VerifyDocumentOwnership | src/main/java/com/heu/rag/core/service/DocumentService.java:49-53 | found exactly when the document exists and its base passes the ownership check; a missing document is "Document not found" |
| DocumentService.GetDocumentInfo | src/main/java/com/heu/rag/core/service/DocumentService.java:108-117 | the document's name exactly when the ownership check passes, and that check's error otherwise |
| DocumentService.JavaDiv | src/main/java/com/heu/rag/core/service/DocumentService.java:73 | Java's truncating division, which agrees with Dafny's for a non-negative dividend and a positive divisor |
| DocumentService.JavaDivNegative | src/main/java/com/heu/rag/core/service/DocumentService.java:73 | with a positive page size the page number is negative exactly when the offset is at most minus the page size |
| DocumentService.JavaDivTruncates | src/main/java/com/heu/rag/core/service/DocumentService.java:73 | -1 / 10 is 0 in Java, unlike Euclidean division |
| DocumentService.CreatedAtDescendingIsTotal | src/main/java/com/heu/rag/core/service/DocumentService.java:74 | newest-first order on `createdAt` is a total preorder |
| DocumentService.Slice | src/main/java/com/heu/rag/core/service/DocumentService.java:176-178 | at most `size` rows; none when the start is past the end; otherwise the rows from the start up to the clamped end |
| DocumentService.SliceConsecutive | src/main/java/com/heu/rag/core/service/DocumentService.java:176-178 | two consecutive slices make the slice of their combined size |
| DocumentService.ListDocuments | src/main/java/com/heu/rag/core/service/DocumentService.java:65-86 | the ownership error first; a zero page size is an arithmetic error; success exactly when the size is positive and the page number not negative; the page is the window from page number times size of the base's documents whose names match the trimmed term, newest first, at most `limit` of them, with the full match count; the page number's page covers the offset |
| DocumentService.NewestFirstPage | src/main/java/com/heu/rag/core/repository/DocumentRepository.java:25-26 | the window of `size` rows from `start` of the matches sorted newest first: at most `size` rows, sorted, all drawn from the matches |
| DocumentService.PageCoversOffset | src/main/java/com/heu/rag/core/service/DocumentService.java:73-74 | page `offset / limit` spans the offset |
| DocumentService.CountDocuments | src/main/java/com/heu/rag/core/service/DocumentService.java:91-99 | the ownership error, or exactly the number of the base's documents whose name matches the search, no larger than the documents table |
| DocumentService.CountAgreesWithList | src/main/java/com/heu/rag/core/service/DocumentService.java:65-99 | the count equals the listing's total; without a term it is the number of the base's documents |
| DocumentService.DocumentChunks | src/main/java/com/heu/rag/core/service/DocumentService.java:154-173 | exactly the chunks whose `docId` metadata prints as the id and whose text contains the trimmed term, ignoring case |
| DocumentService.GetDocumentChunks | src/main/java/com/heu/rag/core/service/DocumentService.java:129-179 | the ownership error; a negative offset fails; otherwise the page `[offset, offset + limit)` of the document's matching chunks, at most `limit` of them and empty past the end |
| DocumentService.ChangeDocumentStatus | src/main/java/com/heu/rag/core/service/DocumentService.java:189-201 | success exactly when the ownership check passes; then only the document's `isEnabled` changes; a failure changes nothing |
| DocumentService.RenameDocument | src/main/java/com/heu/rag/core/service/DocumentService.java:211-227 | a null or blank name is refused before any lookup; success exactly when the name has text and the caller owns the document; then only its name changes, to the trimmed name |
| DocumentService.RenamedNameIsTrimmed | src/main/java/com/heu/rag/core/service/DocumentService.java:211-227 | the stored name has text and trimming it again changes nothing |
| DocumentService.DeleteDocument | src/main/java/com/heu/rag/core/service/DocumentService.java:237-262 | the base ownership error first, then "Document not found", then the document-not-in-base error; success exactly when the caller owns the base and the document is in it; then exactly that document is removed; a failure changes nothing |
| KnowledgeBaseController.ListingOf | src/main/java/com/heu/rag/core/controller/KnowledgeBaseController.java:140-147 | one entry per base, in order, and a total equal to their number |
| KnowledgeBaseController.OwnedBase | src/main/java/com/heu/rag/core/controller/KnowledgeBaseController.java:61-67 | the base exactly when the ownership check passes, and then it is the caller's base with that id |
| KnowledgeBaseController.CreateKnowledgeBase | src/main/java/com/heu/rag/core/controller/KnowledgeBaseController.java:75-96 | the authentication error; a null or blank name is a 400 envelope and nothing is saved; otherwise, for an id no base has, the new base of the caller with the name, description and that id is appended to the bases, nothing else changes, and it is returned as its DTO |
| KnowledgeBaseController.ListKnowledgeBases | src/main/java/com/heu/rag/core/controller/KnowledgeBaseController.java:134-148 | the authentication error, or exactly the caller's bases with their count |
| KnowledgeBaseController.GetKnowledgeBaseInfo | src/main/java/com/heu/rag/core/controller/KnowledgeBaseController.java:155-166 | the authentication error; success exactly when the ownership check passes, with that base's DTO; otherwise the check's error |
| KnowledgeBaseController.Edited | src/main/java/com/heu/rag/core/controller/KnowledgeBaseController.java:185-190 | the name changes only to a name with text, the description to any non-null value, and nothing else changes |
| KnowledgeBaseController.EditedIdempotent | src/main/java/com/heu/rag/core/controller/KnowledgeBaseController.java:185-190 | applying the same edit twice is the same as once |
| KnowledgeBaseController.EmptyEditKeepsBase | src/main/java/com/heu/rag/core/controller/KnowledgeBaseController.java:185-190 | an edit with a blank name and no description leaves the base as it was |
| KnowledgeBaseController.EditKnowledgeBase | src/main/java/com/heu/rag/core/controller/KnowledgeBaseController.java:174-197 | the authentication or ownership error changes nothing; otherwise the edited base is saved, its update time stamped only when something changed |
| KnowledgeBaseController.UpdatedAtDescendingIsTotal | src/main/java/com/heu/rag/core/repository/KnowledgeBaseRepository.java:18 | most-recently-updated-first order is a total preorder |
| KnowledgeBaseController.SearchHits | src/main/java/com/heu/rag/core/repository/KnowledgeBaseRepository.java:18-20 | exactly the user's bases whose name contains the term ignoring case, most recently updated first |
| KnowledgeBaseController.SearchKnowledgeBases | src/main/java/com/heu/rag/core/controller/KnowledgeBaseController.java:207-229 | the authentication error; a null or blank term lists all of the caller's bases; otherwise the search hits with their count |
| KnowledgeBaseController.SearchFindsMatches | src/main/java/com/heu/rag/core/controller/KnowledgeBaseController.java:212-218 | every base of the caller whose name contains the term is found |
| KnowledgeBaseController.DeleteKnowledgeBase | src/main/java/com/heu/rag/core/controller/KnowledgeBaseController.java:238-265 | the authentication or ownership error changes nothing; otherwise exactly the base and its documents are removed, and none of them remains |
| KnowledgeBaseController.DeleteDocument | src/main/java/com/heu/rag/core/controller/KnowledgeBaseController.java:272-285 | the authentication error; otherwise the envelope is a success exactly when the document service deletes, and then exactly that document is gone; a failed delete changes nothing and is a 500 envelope whose message starts "Failed to delete document: " |
| ChatService.GenerateTitle | src/main/java/com/heu/rag/core/service/ChatService.java:480-489 | a title is 1 to 33 characters with no surrounding space; a missing or blank query gives "New Conversation"; otherwise the trimmed query, cut to its first 30 characters plus "..." when longer |
| ChatService.GenerateTitleIdempotent | src/main/java/com/heu/rag/core/service/ChatService.java:480-489 | titling a title again gives the same title |
| ChatService.EscapeJson | src/main/java/com/heu/rag/core/service/ChatService.java:494-504 | a missing chunk escapes to ""; otherwise the five chained replacements amount to escaping each character on its own |
| ChatService.ReplaceChainEscapesEach | src/main/java/com/heu/rag/core/service/ChatService.java:494-504 | replacing backslash, quote, newline, carriage return and tab in turn over the whole text equals escaping each character on its own |
| ChatService.UnescapeFiveUndoesEscape | src/main/java/com/heu/rag/core/service/ChatService.java:494-504 | undoing the five replacements gives the chunk back |
| ChatService.EscapeJsonRoundTripIff | src/main/java/com/heu/rag/core/service/ChatService.java:494-504 | a JSON reader gets the chunk back exactly when it holds no other control character; otherwise the string is rejected |
| ChatService.BackspaceBreaksEscapeJson | src/main/java/com/heu/rag/core/service/ChatService.java:494-504 | a chunk holding a backspace yields a string a JSON reader rejects |
| ChatService.EscapeJsonStrict | src/main/java/com/heu/rag/core/service/ChatService.java:494-504 | the corrected escape: a missing chunk gives ""; any chunk is read back unchanged by a JSON reader, and the result holds no newline, carriage return or tab |
| ChatService.StrictEachRoundTrip | src/main/java/com/heu/rag/core/service/ChatService.java:494-504 | escaping every control character lets a JSON reader read back any text |
| ChatService.EscapeJsonStrictAgrees | src/main/java/com/heu/rag/core/service/ChatService.java:494-504 | the strict escape agrees with the written one on chunks without other control characters |
| ChatService.Contents | src/main/java/com/heu/rag/core/service/ChatService.java:229-243 | the content stream keeps only non-empty texts, at most one per model response |
| ChatService.ContentsKeepText | src/main/java/com/heu/rag/core/service/ChatService.java:229-243 | dropping empty and missing pieces loses no text |
| ChatService.ConversationIdEvent | src/main/java/com/heu/rag/core/service/ChatService.java:264-273 | the conversation_id event, built with `escapeJson`, is never the ANSWER_DONE status event |
| ChatService.AnswerChunkEvent | src/main/java/com/heu/rag/core/service/ChatService.java:251-255 | an answer_chunk event, built with `escapeJson`, is never the ANSWER_DONE status event |
| ChatService.StreamEvents | src/main/java/com/heu/rag/core/service/ChatService.java:249-281 | one event for the new conversation's id, one per content and one ANSWER_DONE when the stream completes; a completed stream ends with ANSWER_DONE |
| ChatService.StreamShape | src/main/java/com/heu/rag/core/service/ChatService.java:249-281 | a new conversation's stream starts with its conversation_id event; one answer_chunk event per content follows; ANSWER_DONE ends a stream that completes |
| ChatService.DoneOnlyLast | src/main/java/com/heu/rag/core/service/ChatService.java:249-281 | ANSWER_DONE appears only as the last event, and only when the model stream completes |
| ChatService.StreamStep | src/main/java/com/heu/rag/core/service/ChatService.java:229-262 | one model response adds an answer_chunk event and its text to the answer exactly when its text is non-empty |
| ChatService.StreamAnswer | src/main/java/com/heu/rag/core/service/ChatService.java:229-281 | the events are the stream shape over the contents, each chunk escaped by `escapeJson` as written; the answer is their concatenation; persistence runs once when the stream completes and never otherwise |
| ChatService.RetrievedContext | src/main/java/com/heu/rag/core/service/ChatService.java:163-172 | the joined context is empty exactly when every hit's text is empty |
| ChatService.RequestContext | src/main/java/com/heu/rag/core/service/ChatService.java:141-183 | no base, or a failing search, gives an empty context; otherwise the first search's hits, and the lower-threshold search only when the first found nothing and fallback is on |
| ChatService.SystemPromptCarriesContext | src/main/java/com/heu/rag/core/service/ChatService.java:406-465 | for any fixed prompt texts a non-blank context can be read back from its place between the rules and the closing text; every blank context gives the same no-context prompt |
| ChatService.HistoryEntry | src/main/java/com/heu/rag/core/service/ChatService.java:204-214 | a stored message becomes a user or assistant prompt entry carrying its content, or nothing when it has no message map |
| ChatService.HistoryPrompt | src/main/java/com/heu/rag/core/service/ChatService.java:199-217 | history entries never become system prompts and are at most as many as the messages |
| ChatService.LastFive | src/main/java/com/heu/rag/core/service/ChatService.java:201-202 | the last min(5, n) messages, in stored order |
| ChatService.PromptShape | src/main/java/com/heu/rag/core/service/ChatService.java:191-219 | the prompt is the system prompt, then at most five history entries, then the query |
| ChatService.PromptIgnoresOlderHistory | src/main/java/com/heu/rag/core/service/ChatService.java:201-202 | messages older than the last five never reach the prompt |
| ChatService.BuildPrompt | src/main/java/com/heu/rag/core/service/ChatService.java:191-219 | the loop builds exactly the prompt specified by Prompt |
| ChatService.UpdateExisting | src/main/java/com/heu/rag/core/service/ChatService.java:105-119 | switching a conversation to another base is refused with IllegalArgumentException; otherwise the base is recorded, updatedAt refreshed, and nothing else changes |
| ChatService.ResolveConversationAsWritten | src/main/java/com/heu/rag/core/service/ChatService.java:82-138 | as written: a new request gets the fresh id, any other keeps its id, always for the caller; the only refusal is switching the base of an owned conversation |
| ChatService.ResolveConversation | src/main/java/com/heu/rag/core/service/ChatService.java:82-138 | the intended resolution: as above, except that continuing a conversation id is accepted only when the caller owns it or no one has it; another user's id is ResourceNotFound |
| ChatService.ConversationHijackAsWritten | src/main/java/com/heu/rag/core/service/ChatService.java:120-138 | a request naming another user's conversation id replaces that user's conversation with one owned by the caller |
| ChatService.ConversationHijackExample | src/main/java/com/heu/rag/core/service/ChatService.java:120-138 | a concrete conversation taken over this way |
| ChatService.ResolveConversationKeepsOthers | src/main/java/com/heu/rag/core/service/ChatService.java:82-138 | with another user's id refused, the conversation resolved belongs to the caller and saving it keeps every other user's conversation |
| ChatService.GetOrCreateConversation | src/main/java/com/heu/rag/core/service/ChatService.java:82-138 | as written: the result is the as-written resolution, which is upserted into the store on success; a refusal changes nothing; no other table changes |
| ChatService.ValidateBaseAccess | src/main/java/com/heu/rag/core/service/ChatService.java:296-302 | passes exactly when the base exists and belongs to the user; a missing base is ResourceNotFound, a foreign one IllegalArgument |
| ChatService.ResolveEffectiveBaseId | src/main/java/com/heu/rag/core/service/ChatService.java:288-294 | the request's base wins over the conversation's; a base used is one the user owns |
| ChatService.MessageMap | src/main/java/com/heu/rag/core/service/ChatService.java:470-475 | the stored message map holds exactly the role and the content |
| ChatService.ExchangeLinks | src/main/java/com/heu/rag/core/service/ChatService.java:304-378 | after saving, the user turn's parent is the previous current node and its only child the assistant turn; the assistant turn's parent is the user turn; both carry their role and text, other messages are kept and ids stay unique |
| ChatService.PersistExchange | src/main/java/com/heu/rag/core/service/ChatService.java:304-378 | an empty answer stores nothing; otherwise both turns are stored and the conversation's current node is the assistant turn |
| ChatService.ChatStream | src/main/java/com/heu/rag/core/service/ChatService.java:75-286 | a refused conversation stores nothing; a resolved conversation is saved before the base is checked, so a refused base still leaves it upserted; on success the conversation is the resolved one, the events (chunks escaped by `escapeJson`), the base and the prompt are those specified, and the tables are those of AfterTurn after that save: a completed, non-empty answer stores the exchange and saves the conversation with the assistant turn as current node, anything else stores no message |
| ChatService.AnswerTurn | src/main/java/com/heu/rag/core/service/ChatService.java:143-283 | once conversation and base are settled: the events follow the stream shape with chunks escaped by `escapeJson`, the prompt is the one built from the retrieved context and the stored history; a completed, non-empty answer stores exactly the exchange's messages and upserts the conversation with the assistant turn as current node, and any other answer changes neither messages nor conversations |
| KnowledgeBaseService.ExtractFileSuffix | src/main/java/com/heu/rag/core/service/KnowledgeBaseService.java:319-324 | no name or no dot gives ""; otherwise the lower-cased text after the last dot, which holds no dot |
| KnowledgeBaseService.DetermineFileType | src/main/java/com/heu/rag/core/service/KnowledgeBaseService.java:337-348 | a recognised suffix, in any case, gives the type whose table holds it; any other suffix gives Other |
| KnowledgeBaseService.DetermineFileTypeExact | src/main/java/com/heu/rag/core/service/KnowledgeBaseService.java:337-348 | the suffix tables are disjoint, so a suffix in a type's table gives that type |
| KnowledgeBaseService.DetermineFileTypeIgnoresCase | src/main/java/com/heu/rag/core/service/KnowledgeBaseService.java:338 | the case of the suffix does not matter |
| KnowledgeBaseService.CollapseSpacesIdempotent | src/main/java/com/heu/rag/core/service/KnowledgeBaseService.java:485 | collapsing whitespace runs a second time changes nothing |
| KnowledgeBaseService.CollapseSpacesKeepsVisible | src/main/java/com/heu/rag/core/service/KnowledgeBaseService.java:485 | collapsing whitespace keeps every non-space character, in order |
| KnowledgeBaseService.SafePreview | src/main/java/com/heu/rag/core/service/KnowledgeBaseService.java:481-490 | null previews as "<null>"; otherwise the whitespace-collapsed, trimmed text, cut to maxLen characters plus "..." when longer |
| KnowledgeBaseService.FindNestedNullPaths | src/main/java/com/heu/rag/core/service/KnowledgeBaseService.java:441-479 | the recursive walk reports exactly the specified null paths, in map, list and array order |
| KnowledgeBaseService.NullPathsNone | src/main/java/com/heu/rag/core/service/KnowledgeBaseService.java:441-479 | no path is reported exactly when the value holds no null value and no null key |
| KnowledgeBaseService.ValidateMilvusPayload | src/main/java/com/heu/rag/core/service/KnowledgeBaseService.java:407-439 | a null list gives one error; otherwise the per-document errors in order: null document, blank id, blank content, null metadata, nested null paths |
| KnowledgeBaseService.PayloadErrorsNone | src/main/java/com/heu/rag/core/service/KnowledgeBaseService.java:407-439 | the payload passes exactly when every document is present with a non-blank id and content and null-free metadata |
| KnowledgeBaseService.SanitizedPayloadValid | src/main/java/com/heu/rag/core/service/KnowledgeBaseService.java:228-264 | whatever the sanitiser returns passes the payload check |
| KnowledgeBaseService.FullTextBlank | src/main/java/com/heu/rag/core/service/KnowledgeBaseService.java:101-121 | the joined text is blank exactly when every parsed document's text is blank |
| KnowledgeBaseService.ValidChunks | src/main/java/com/heu/rag/core/service/KnowledgeBaseService.java:138-148 | the chunks kept are exactly those whose content is not blank |
| KnowledgeBaseService.GeneratedIdInjective | src/main/java/com/heu/rag/core/service/KnowledgeBaseService.java:183-186 | the generated ids of two chunk indexes of one document differ |
| KnowledgeBaseService.ChunkMetadataLookup | src/main/java/com/heu/rag/core/service/KnowledgeBaseService.java:199-213 | the five injected metadata keys carry the document id, base id, file name, chunk index and enabled flag; every other key keeps its chunk value |
| KnowledgeBaseService.PrepareChunkFacts | src/main/java/com/heu/rag/core/service/KnowledgeBaseService.java:163-220 | a prepared chunk keeps its content and its own non-blank id, else gets the generated id; its metadata carries its chunk index |
| KnowledgeBaseService.PreparedChunksIndexes | src/main/java/com/heu/rag/core/service/KnowledgeBaseService.java:159-224 | the k-th prepared document comes from the k-th chunk with content, at that chunk's index |
| KnowledgeBaseService.AttachMetadata | src/main/java/com/heu/rag/core/service/KnowledgeBaseService.java:159-224 | the loop builds exactly the prepared documents specified |
| KnowledgeBaseService.ClassifyStoreError | src/main/java/com/heu/rag/core/service/KnowledgeBaseService.java:265-294 | an "id is not provided" message, then a "collection" message, then a null-string message are told apart; any other failure keeps its message |
| KnowledgeBaseService.OutcomeMeaning | src/main/java/com/heu/rag/core/service/KnowledgeBaseService.java:89-302 | processing succeeds exactly when some parsed text is non-blank, some chunk has content and storage does not fail; it then counts the chunks with content; the sanitiser and payload checks never fail |
| KnowledgeBaseService.Finished | src/main/java/com/heu/rag/core/service/KnowledgeBaseService.java:298-311 | the finished row records Success and the chunk count, or Failure with the count unchanged, a save that the rollback of the failing upload undoes; nothing else changes |
| KnowledgeBaseService.Process | src/main/java/com/heu/rag/core/service/KnowledgeBaseService.java:89-302 | the processing steps give exactly the specified outcome |
| KnowledgeBaseService.UploadAndProcess | src/main/java/com/heu/rag/core/service/KnowledgeBaseService.java:52-314 | a missing or foreign base is refused with its message and stores nothing; otherwise, for an id no document has, a successful outcome appends exactly one document row, created with status None and finished with status Success and the chunk count, and reports the count; a failed outcome reports the failure and, since the rethrown exception rolls the transaction back, leaves the documents table as it was, with no row under the id |
| MilvusSanitizer.NormalizeString | src/main/java/com/heu/rag/core/util/MilvusDocumentSanitizer.java:153-159 | a null or blank value gives the default; otherwise the trimmed value |
| MilvusSanitizer.NormalizeStringIdempotent | src/main/java/com/heu/rag/core/util/MilvusDocumentSanitizer.java:153-159 | normalising a normalised value changes nothing |
| MilvusSanitizer.SanitizeValue | src/main/java/com/heu/rag/core/util/MilvusDocumentSanitizer.java:113-151 | the result holds no null; null becomes "" with a warning; strings are trimmed; numbers and booleans are kept; lists and arrays keep their length; other objects become their trimmed text with a warning |
| MilvusSanitizer.SanitizeMap | src/main/java/com/heu/rag/core/util/MilvusDocumentSanitizer.java:70-91 | the sanitised map has only non-blank trimmed keys and null-free values |
| MilvusSanitizer.SanitizeItems | src/main/java/com/heu/rag/core/util/MilvusDocumentSanitizer.java:93-111 | a sanitised list keeps its length and holds no null |
| MilvusSanitizer.FallbackId | src/main/java/com/heu/rag/core/util/MilvusDocumentSanitizer.java:44-48 | the fallback id is never blank |
| MilvusSanitizer.InjectSafe | src/main/java/com/heu/rag/core/util/MilvusDocumentSanitizer.java:56-61 | injecting the five keys keeps the metadata null-free with normal keys |
| MilvusSanitizer.InjectedMetadata | src/main/java/com/heu/rag/core/util/MilvusDocumentSanitizer.java:56-61 | the injected keys carry the document id, base id, file name (default "unnamed-file"), position among kept documents and the enabled flag; other keys are unchanged |
| MilvusSanitizer.SanitizeDoc | src/main/java/com/heu/rag/core/util/MilvusDocumentSanitizer.java:38-64 | a document is kept exactly when it is present with non-blank content; a null one warns |
| MilvusSanitizer.SurvivesIff | src/main/java/com/heu/rag/core/util/MilvusDocumentSanitizer.java:38-54 | a document survives exactly when present with non-blank text |
| MilvusSanitizer.SanitizeDocKept | src/main/java/com/heu/rag/core/util/MilvusDocumentSanitizer.java:44-64 | a kept document is safe for Milvus, has its trimmed content, its trimmed id or the fallback id, and its position as chunkIndex |
| MilvusSanitizer.SanitizePrefixEmits | src/main/java/com/heu/rag/core/util/MilvusDocumentSanitizer.java:36-65 | the k-th output document is safe and has chunkIndex k; the output texts are the surviving inputs' texts in order |
| MilvusSanitizer.Sanitize | src/main/java/com/heu/rag/core/util/MilvusDocumentSanitizer.java:20-68 | a null or empty list gives no documents and one warning; otherwise the loop gives exactly the specified result |
| GoChat.GetValidModel | backend/services/chat.go:59-72 | a model is accepted exactly when it is one of the three names; "auto" becomes "QwQ32B", the others are kept; a refused model gives "" |
| GoChat.ValidModelStable | backend/services/chat.go:59-72 | a resolved model is accepted again unchanged |
| GoChat.GeneratedTitleDiffers | backend/services/chat.go:45-47 | the placeholder "New chat" differs from the "New Chat" used for new conversations only in the case of one letter |
| GoChat.MarshalWellFormed | backend/services/chat.go:110-118 | a marshalled metadata chunk fits on one data line |
| GoChat.ChunkOutput | backend/services/chat.go:110-126 | only the metadata chunk and the [DONE] string produce a frame, at most one per value |
| GoChat.HandleChunk | backend/services/chat.go:110-126 | appends the value's frame to the response and asks for more exactly when the value is not [DONE]; headers are untouched |
| GoChat.DeliveredPrefix | backend/services/chat.go:269-281 | the writer handles every value up to and including the first [DONE], or all of them when none is |
| GoChat.Stream | backend/services/chat.go:265-282 | the stream loop writes exactly the frames of the values handled |
| GoChat.AnswerTextNeverWritten | backend/services/chat.go:110-126 | every frame written is [DONE] or a metadata chunk that was sent: generated text never reaches the client |
| GoChat.AnswerStream | backend/services/chat.go:258-282 | for a metadata chunk, generated text and [DONE], the response is the metadata frame then [DONE]; without [DONE], only the metadata frame |
| GoChat.QuietBody | backend/services/chat.go:258-264 | before [DONE] only the metadata frame is written |
| GoChat.SilentTexts | backend/services/chat.go:120-125 | generated strings other than [DONE] write nothing |
| GoChat.ResolveConversation | backend/services/chat.go:169-225 | the store changes exactly as the branch specifies and the result is its conversation or status; a parent id no message has is 500 and changes nothing |
| GoChat.ResolveRoot | backend/services/chat.go:169-191 | a root parent always creates a "New Chat" conversation for the user with the message as current node, even for an empty id; a non-root parent with an empty id is 400 and changes nothing |
| GoChat.ResolveIgnoresOwner | backend/services/chat.go:195-225 | a conversation is found by id alone, so another user's conversation is continued and its current node moved |
| GoChat.ResolveTwiceDuplicates | backend/services/chat.go:202-206 | the child id is pushed, so sending the same message twice lists it twice under its parent |
| GoChat.ResolveUnknownParent | backend/services/chat.go:195-210 | continuing a stored conversation from a parent no message has is answered 500 and changes neither collection, since the message update matches nothing |
| GoChatHandler.SetStreamHeaders | backend/services/chatHandler.go:44-50 | the four streaming headers get exactly their values, other headers and the body are unchanged |
| GoChatHandler.Fields | backend/services/chatHandler.go:29-34 | a marshalled chunk always holds type, and content, message and conversation_id exactly when non-empty |
| GoChatHandler.ChunkOutput | backend/services/chatHandler.go:80-98 | a chunk is marshalled and a string sent verbatim as one frame; any other value writes nothing |
| GoChatHandler.HandleChunk | backend/services/chatHandler.go:80-98 | appends the value's frame and always asks for more |
| GoChatHandler.Stream | backend/services/chatHandler.go:273-287 | the stream loop writes exactly the frames of all values |
| GoChatHandler.MarshalWellFormed | backend/services/chatHandler.go:80-88 | every marshalled chunk fits on one data line |
| GoChatHandler.ChunksReachClient | backend/services/chatHandler.go:80-98 | for marshalled chunks (a path the handler's `chan string` does not use): the browser's decoder receives exactly those chunks, in order, and each field value reads back as sent |
| GoChatHandler.TextChunksReachClient | backend/services/chatHandler.go:89-90 | the strings the handler writes verbatim reach the browser's decoder intact and in order when each fits on one `data:` line |
| GoChatHandler.BlankLineCutsText | backend/services/chatHandler.go:89-90 | a generated string holding a blank line is cut into two events and the browser keeps only the part before it |
| GoChatHandler.ResolveConversation | backend/services/chatHandler.go:142-203 | the store changes exactly as the branch specifies and the result is its conversation or status; a parent id no message of the conversation has is 500 and changes nothing |
| GoChatHandler.ResolveMissing | backend/services/chatHandler.go:142-174 | with no conversation of the user under that id, a root parent creates one with the message as current node (400 for an empty id); any other parent is 404; nothing else changes |
| GoChatHandler.ResolveExisting | backend/services/chatHandler.go:180-203 | continuing the user's conversation moves only its current node; the parent lists the message exactly once; no other document changes |
| GoChatHandler.ResolveUnknownParent | backend/services/chatHandler.go:180-189 | continuing the user's conversation from a parent no message of it has is answered 500 and changes neither collection |
| GoHttp.EscapeRoundTrip | backend/services/chatHandler.go:82-88 | every string field written by json.Marshal reads back unchanged through a JSON string decoder |
| GoHttp.ObjectOneLine | backend/services/chatHandler.go:82-88 | a marshalled object whose member names hold no newline is written on one line |
| GoHttp.ResponseWriter.SetHeader | backend/services/chatHandler.go:45-49 | Header().Set gives the name exactly that one value and writes nothing |
| GoHttp.ResponseWriter.Write | backend/services/chatHandler.go:88-90 | a write appends its text to the body and leaves the headers alone |
| GoStore.AddToSet | backend/services/chatHandler.go:181-185 | $addToSet leaves the children containing exactly the old ones and the new id, unchanged when it was already there |
| GoStore.AddToSetOnce | backend/services/chatHandler.go:183 | adding to a set twice is adding once, and the id is listed once |
| GoStore.Push | backend/services/chat.go:202-206 | $push appends the id at the end |
| GoStore.PushTwice | backend/services/chat.go:204 | pushing the same id twice lists it two more times |
| GoStore.MongoStore.InsertConversation | backend/services/chatHandler.go:164 | the conversation is appended; messages are unchanged |
| GoStore.MongoStore.ReplaceConversation | backend/services/chatHandler.go:194-196 | only the given conversation document changes |
| GoStore.MongoStore.ReplaceMessage | backend/services/chatHandler.go:181-185 | only the given message document changes |
| GoUtils.ValidName | backend/services/utils.go:40-55 | a name is refused for length exactly when its byte length is outside 3 to 20; it is accepted exactly when, within that length, it holds a letter or digit and only letters, digits and # . _ - |
| GoUtils.AcceptedNameIsShortAscii | backend/services/utils.go:40-55 | an accepted name is 3 to 20 ASCII characters |
| GoUtils.UsernameRulesDiffer | backend/services/utils.go:40-55 | the Go and Java username rules differ: "___" passes Java only and "a#b" Go only |
| GoUtils.JavaNameAcceptedByGo | backend/services/utils.go:40-55 | a name the Java rule accepts that holds a letter or digit is accepted by Go |
| GoUtils.GoNameAcceptedByJava | backend/services/utils.go:40-55 | a name Go accepts without # . or - is accepted by the Java rule |
| GoUtils.IsValidEmail | backend/services/utils.go:58-61 | an address is accepted exactly when a run of local-part characters, at least one, starting at its beginning is followed by "@hrbeu", any character, "edu", any character, "cn"; anything may follow |
| GoUtils.JavaImpliesGo | backend/services/utils.go:58-61 | every address the Java validator accepts is accepted by Go |
| GoUtils.GoAcceptsMore | backend/services/utils.go:58-61 | Go also accepts trailing text and any character in place of the dots |
| GoUtils.GenerateCode | backend/services/utils.go:64-72 | a code is 2n upper-case hex digits that decode back to the random bytes; a failed read gives the prefixed error |
| GoUtils.EqualFoldIffLower | backend/services/utils.go:80 | case-insensitive equality is equality after lower-casing |
| GoUtils.ValidateCode | backend/services/utils.go:75-84 | a failed read or a missing key is an error; otherwise the code matches exactly when it equals the stored one ignoring case |
| GoUtils.GeneratedCodeVerifies | backend/services/utils.go:64-84 | a stored code verifies in either case, and any code that verifies decodes to the same bytes |
| GoUserHandler.FindUser | backend/services/userHandler.go:214-232 | the row found holds the value; none is found exactly when no row holds it |
| GoUserHandler.AppendFreshKeepsUnique | backend/services/userHandler.go:214-245 | a user whose name and address are both new keeps names and addresses unique |
| GoUserHandler.KeysDisjoint | backend/services/userHandler.go:47-99 | reset-token keys and e-mail code keys never collide |
| GoUserHandler.CodeReply | backend/services/userHandler.go:193-204 | a code check passes exactly when the stored code matches |
| GoUserHandler.RegisterCheck | backend/services/userHandler.go:170-233 | a registration passes the checks exactly when it binds, the name and address are well formed, the code matches, hashing and queries succeed and neither the address nor the name is taken; refusals are 400, 401, 404 or 500 |
| GoUserHandler.RegisterCheckOrder | backend/services/userHandler.go:177-204 | the name is judged before the address and the address before the code |
| GoUserHandler.LoginLookup | backend/services/userHandler.go:290-318 | an account with "@" is looked up by address after the address pattern, any other by name after the name rule; the row found holds the account |
| GoUserHandler.LoginCheck | backend/services/userHandler.go:283-325 | a login succeeds exactly when it binds, the row is found and the password matches; a found row with a wrong password is "密码错误"; refusals are 400 or 401 |
| GoUserHandler.AddressLogsIn | backend/services/userHandler.go:290-325 | a stored user with a valid address logs in by address with the right password |
| GoUserHandler.LongAddressIsNoName | backend/services/userHandler.go:290-312 | an address is never judged by the name rule, though it fails it |
| GoUserHandler.RegisteredUserCanLogin | backend/services/userHandler.go:170-325 | a user just registered logs in by name and by address |
| GoUserHandler.Invalidate | backend/services/userHandler.go:327 | every valid session of the user becomes invalid; nothing else changes |
| GoUserHandler.InvalidationKeyAsWritten | backend/services/userHandler.go:297-327 | as written: the key is the id of the row selected with only password and user_id, which is zero whoever the user is |
| GoUserHandler.InvalidationKey | backend/services/userHandler.go:297-327 | the intended key: the selected user's own id |
| GoUserHandler.LoginInvalidationAsWritten | backend/services/userHandler.go:297-331 | the selection leaves the row's id at zero, so the sessions of a user with a non-zero id are not invalidated |
| GoUserHandler.OldSessionSurvivesAsWritten | backend/services/userHandler.go:297-331 | a concrete earlier session that stays valid after a login |
| GoUserHandler.LoginLeavesOneSession | backend/services/userHandler.go:327-348 | with the key of InvalidationKey (the user's own id), the new session is the user's only valid one and other users' sessions are untouched |
| GoUserHandler.VerifyCheck | backend/services/userHandler.go:64-95 | verification passes exactly when it binds, the address is well formed and the code matches |
| GoUserHandler.ResetCheck | backend/services/userHandler.go:114-145 | a reset passes exactly when it binds, the password has at least 6 bytes and the token is stored; it then yields the token's address |
| GoUserHandler.ResetTokenFlow | backend/services/userHandler.go:99-162 | a stored token leads to its address; once deleted it is refused |
| GoUserHandler.SetPassword | backend/services/userHandler.go:154 | every row with the address gets the new hash; other rows are unchanged |
| GoUserHandler.SetPasswordKeepsUnique | backend/services/userHandler.go:154 | setting passwords keeps names and addresses unique |
| GoUserHandler.SetField | backend/services/userHandler.go:381-430 | the user's rows get the new value in the one column; other rows and columns are unchanged |
| GoUserHandler.UpdatedKeepsUnique | backend/services/userHandler.go:381-402 | an update that is not a unique violation keeps names and addresses unique |
| GoUserHandler.SameValueIsUpdated | backend/services/userHandler.go:396-402 | setting the current value matches one row, so it is answered as a change and never as 304 |
| GoUserHandler.ChangeReplyAsWritten | backend/services/userHandler.go:384-402 | as written: 500 exactly for a unique violation or another failure, 200 exactly for a change, and the "already exists" reply is never given |
| GoUserHandler.ChangeReply | backend/services/userHandler.go:384-402 | the intended reply: a unique violation is answered with the 400 "already exists" reply, a failure with 500, a change with 200 |
| GoUserHandler.TakenValueRefused | backend/services/userHandler.go:381-393 | changing to another user's value is a unique violation answered 400 |
| GoUserHandler.Backend.EmailHandler | backend/services/userHandler.go:24-59 | an empty or malformed address is refused and stores nothing; otherwise the upper-case hex code is stored under the address and queued, and 200 is given exactly when every step succeeds |
| GoUserHandler.Backend.UserRegister | backend/services/userHandler.go:170-276 | a failed check is answered with its reply and changes nothing; otherwise the user is appended with the hashed password and a valid session opened; 200 exactly when both inserts succeed |
| GoUserHandler.Backend.UserLogin | backend/services/userHandler.go:281-354 | as written: a failed check is answered with its reply; otherwise the sessions under the key of InvalidationKeyAsWritten (zero) are invalidated, so the user's old sessions stay valid, and a new valid one is appended; 200 exactly when both steps succeed |
| GoUserHandler.Backend.VerifyEmailCode | backend/services/userHandler.go:64-109 | a failed check changes nothing; otherwise the token is stored with the address and returned with 200 |
| GoUserHandler.Backend.ResetPassword | backend/services/userHandler.go:114-165 | a failed check changes nothing; otherwise every row with the address gets the new hash and the token is deleted |
| GoUserHandler.Backend.ChangeField | backend/services/userHandler.go:359-452 | an empty value or a missing session is refused and changes nothing; otherwise the reply is the as-written reply to the update's outcome (500 for a taken value) and the rows change only when it is a change |
| ChatClient.CreateUserMessage | frontend/src/components/chat/utils.jsx:4-19 | a blank input gives null; otherwise a finished user message with the trimmed text, a fresh id, the conversation id or "", and the last message's id as parent |
| ChatClient.CreateAiMessage | frontend/src/components/chat/utils.jsx:22-35 | an empty, thinking assistant message in processing, child of the user message in its conversation, with the selected model or undefined |
| ChatClient.TurnsChain | frontend/src/components/chat/utils.jsx:4-35 | the assistant message follows the user message and the next user message follows the assistant message, in one conversation |
| ChatClient.ApplyEvent | frontend/src/components/chat/utils.jsx:51-108 | unknown event types change nothing; only a conversation_id event changes the id; abort is requested exactly on status ANSWER_DONE; the message list keeps its length |
| ChatClient.ChunksAppendInOrder | frontend/src/components/chat/utils.jsx:64-83 | answer chunks are appended in order to the last assistant message, to its reasoning while it is thinking and to its text otherwise, and nothing else changes |
| ChatClient.ThinkThenAnswer | frontend/src/components/chat/utils.jsx:64-83 | chunks before "</think>" go to the reasoning, the marker ends thinking, and later chunks go to the text |
| ChatClient.IndexOfSeparator | frontend/src/components/chat/utils.jsx:138 | the leftmost blank-line separator, or none |
| ChatClient.SplitBlocksJoin | frontend/src/components/chat/utils.jsx:137-142 | cutting the buffer into blocks and a remainder loses nothing |
| ChatClient.SplitBlocksRest | frontend/src/components/chat/utils.jsx:137-142 | the remainder kept in the buffer holds no separator |
| ChatClient.SplitAppend | frontend/src/components/chat/utils.jsx:134-142 | appending to the buffer never changes the blocks already cut |
| ChatClient.LinesJoin | frontend/src/components/chat/utils.jsx:145-146 | splitting a block into lines loses nothing |
| ChatClient.PayloadOf | frontend/src/components/chat/utils.jsx:145-154 | a payload is the trimmed join of the data lines, never empty and without surrounding space |
| ChatClient.StepBlock | frontend/src/components/chat/utils.jsx:151-164 | once [DONE] is seen nothing changes; decoding ends exactly at a [DONE] payload |
| ChatClient.UnparsablePayloadsIgnored | frontend/src/components/chat/utils.jsx:157-164 | payloads that are not JSON change nothing |
| ChatClient.NormalizeAppend | frontend/src/components/chat/utils.jsx:132 | replacing CRLF piecewise equals replacing it in the whole text, unless a CRLF is split between reads |
| ChatClient.ReceivedTextNormalizesWhole | frontend/src/components/chat/utils.jsx:117-134 | the buffer grows by the normalised text of every read, null values skipped |
| ChatClient.ReadBoundariesDoNotMatter | frontend/src/components/chat/utils.jsx:110-166 | two ways of cutting the same text into reads decode alike |
| ChatClient.ProcessSse | frontend/src/components/chat/utils.jsx:38-169 | the loop decodes all text received, stopping at [DONE]; once ANSWER_DONE has requested the abort and decoding has not ended, the next read rejects with AbortError; otherwise it returns the conversation id seen, in the state of decoding the text read |
| ChatClient.AbortStaysRequested | frontend/src/components/chat/utils.jsx:95-98 | once ANSWER_DONE has asked for the abort, no later block withdraws it |
| ChatClient.StopReadEnds | frontend/src/components/chat/utils.jsx:110-166 | the read loop gets through every read unless [DONE] or a requested abort stops it |
| ChatClient.NoAbortDecodesWhole | frontend/src/components/chat/utils.jsx:110-166 | a stream that never asks for the abort returns with the state of decoding all of its text as a whole |
| ChatClient.DoneStopsReads | frontend/src/components/chat/utils.jsx:110-166 | once [DONE] is among the blocks read, the loop stops with what has been decoded so far |
| ChatClient.FramesRoundTrip | frontend/src/components/chat/utils.jsx:137-160 | a sequence of one-line data frames is cut into exactly those payloads and each is handled in order |
| ChatClient.DoneFrameEndsDecoding | frontend/src/components/chat/utils.jsx:155 | a [DONE] frame ends decoding; nothing after it is handled |
| ChatClient.FetchUsername | frontend/src/components/chat/utils.jsx:172-201 | the stored login is cleared exactly on 401; a name is returned only from a successful reply with code 200 and a string username, and such a reply gives it |
| DocumentUtils.Lookup | frontend/src/components/document/utils.jsx:29-35 | an own property gives its label; a name no object has gives undefined |
| DocumentUtils.Match | frontend/src/components/document/utils.jsx:29-35 | the result is always truthy: the label when found, else the value when truthy, else "-" |
| DocumentUtils.StatusLabels | frontend/src/components/document/utils.jsx:1-8 | every parse state gets its label from its number and from its name |
| DocumentUtils.FileTypeLabels | frontend/src/components/document/utils.jsx:10-27 | every file type gets its name from its number and from its name |
| DocumentUtils.Fallbacks | frontend/src/components/document/utils.jsx:29-35 | unknown truthy values come back unchanged; falsy ones give "-"; 0 is the waiting label; "toString" gives the inherited method |
| UserUtils.Message | frontend/src/components/user/utils.jsx:9-15 | the not-logged-in message when the login flag is not "login"; the expired message when logged in without a token; none otherwise |
| UserUtils.SpacedApart | frontend/src/components/user/utils.jsx:3-8 | any two scheduled toasts are at least the later one's duration plus 100 ms apart |
| UserUtils.ToastGate.ToastIfLogin | frontend/src/components/user/utils.jsx:5-26 | a call is accepted exactly when the duration plus 100 ms has passed since the last accepted one; it then records the time and schedules one toast with the message; the spacing invariant is kept |
| UserUtils.LoggedInStillToasts | frontend/src/components/user/utils.jsx:5-26 | a logged-in user with a token still gets a toast, with no message |
| GoFileUtils.FileTypeCodeInjective | backend/models/baseModel.go:8-17 | the file types have distinct numbers from 1 to 8 |
| GoFileUtils.ParseStatusCodeInjective | backend/models/baseModel.go:21-25 | the parse states have distinct numbers from 0 to 2 |
| GoFileUtils.GetFileTypeBySuffix | backend/services/utils/fileUtils.go:46-67 | a suffix gives the type whose table holds it after lower-casing, or Other exactly when no table does |
| GoFileUtils.SuffixGivesItsType | backend/services/utils/fileUtils.go:46-67 | the tables are disjoint |
| GoFileUtils.SuffixCaseIgnored | backend/services/utils/fileUtils.go:47 | the case of the suffix does not matter |
| GoFileUtils.DotRequired | backend/services/utils/fileUtils.go:46-67 | a suffix without its dot, or ".markdown", is Other; ".PDF" is PDF |
| GoFileUtils.TablesAgree | backend/services/utils/fileUtils.go:46-67 | the Go and Java tables agree on every suffix but markdown, bmp and svg |
| GoFileUtils.TablesDiffer | backend/services/utils/fileUtils.go:46-67 | svg is an image only in Go; bmp an image and markdown Markdown only in Java |
| Sorting.SortInPlace | src/main/java/com/heu/rag/core/controller/ConversationController.java:80-88 | sorting the list in place leaves it ordered by the comparator and a permutation of what it held |
| Sorting.SortBySorted | src/main/java/com/heu/rag/core/controller/ConversationController.java:253-254 | the value-level sort by a total preorder is ordered and a permutation of its input |
| Sorting.SortByEnds | src/main/java/com/heu/rag/core/controller/ConversationController.java:253-254 | the first element of a sorted non-empty list is below every element and the last above every element |
| DocumentUtils.MatchStatus | frontend/src/components/document/utils.jsx:29-31 | the status cell is never blank: a label, the value itself, or "-" |
| DocumentUtils.MatchFileType | frontend/src/components/document/utils.jsx:33-35 | the file-type cell is never blank: a label, the value itself, or "-" |
| KnowledgeBaseService.NewDocument | src/main/java/com/heu/rag/core/service/KnowledgeBaseService.java:70-86 | a new document record starts unparsed, with no chunks, and enabled |
| MilvusSanitizer.SanitizePrefix | src/main/java/com/heu/rag/core/util/MilvusDocumentSanitizer.java:36-65 | one sanitized document per surviving source document, never more than were read |
| MilvusSanitizer.CastKeys | src/main/java/com/heu/rag/core/util/MilvusDocumentSanitizer.java:70-91 | casting the keys of a metadata map never grows it and warns at most once per entry |
| GoUtils.HexRoundTrip | backend/services/utils.go:70 | the upper-case hex text of any bytes decodes back to those bytes |
| GoUtils.LowerHexSame | backend/services/utils.go:70 | hex texts that differ only in letter case decode to the same bytes |
| ChatController.WireFrames | src/main/java/com/heu/rag/core/controller/ChatController.java:58-59 | sending each event as its own frame puts on the wire exactly the concatenated frames of the events |
| ChatController.TypedEventWellFormed | src/main/java/com/heu/rag/core/service/ChatService.java:249-262 | a typed event whose parts have no newline fits on one `data:` line |
| ChatClient.SplitBlocksBlocks | frontend/src/components/chat/utils.jsx:137-142 | no block split off the buffer contains the blank-line separator |
| ChatClient.NormalizeLineEnds | frontend/src/components/chat/utils.jsx:132 | replacing CRLF by LF never makes the text longer |
| ChatClient.NormalizeNoCrLf | frontend/src/components/chat/utils.jsx:132 | text without CRLF is left unchanged |
| ChatClient.FramesSplit | frontend/src/components/chat/utils.jsx:137-142 | the server's frames split into exactly one `data:` block per event and leave nothing buffered |
| ChatClient.DoneMarkerEndsDecoding | frontend/src/components/chat/utils.jsx:155 | a `[DONE]` frame that follows complete frames ends decoding, whatever comes after it |
| GoFileUtils.LowerSuffixType | backend/services/utils/fileUtils.go:48-66 | a type other than Other exactly when the suffix is in that type's table, and Other exactly when it is in none |
| GoFileUtils.SuffixShape | backend/services/utils/fileUtils.go:48-66 | every suffix of the table starts with a dot and has at most five characters, so anything else is Other |
| Text.JavaTrim | src/main/java/com/heu/rag/core/service/KnowledgeBaseService.java:101-121 | Java's `trim` never lengthens the text and leaves it starting and ending with a character above U+0020 |

## Left out

- Network, database drivers, the SMTP server, the language-model, embedding and vector-store clients, Tika parsing and the text splitter: their answers are parameters (parsed text, chunks, hits, stream contents, store errors), and a failure is a single `Fault` or error input naming the step that fails.
- BCrypt and JWT internals: hashing, matching, token creation and token parsing are function parameters.
- Clocks, UUIDs and random bytes: parameters of the operations that read them.
- Redis expiry times: entries are kept in a map and never expire on their own.
- Transactions: of the `@Transactional` methods only `uploadAndProcess` and `deleteAccount` throw after writing, and they roll back the relational tables explicitly (`Store.Database.RollBack`); every other `@Transactional` method fails before its first write, and the non-transactional ones keep the effects of the steps before a failure.  Isolation between concurrent transactions is not modelled.
- Concurrency: the Snowflake generator's `synchronized`, the Go goroutine that feeds the chunk channel, and simultaneous requests are not modelled.
- The gRPC `GenerateMessage` stream of the Go backend (backend/services/chat.go:75-107, backend/services/chatHandler.go:53-77) is taken as the sequence of chunks it delivers.
- GoChatHandler.ResolveConversation: the message insert, the knowledge-base lookup and the gRPC call of `HandleNewMessage` (backend/services/chatHandler.go:207-257, backend/services/chat.go:228-256) are not modelled; only the conversation resolution and the streaming are.
- The deprecated two-argument `chatStream` overload (ChatService.java:387-391) only forwards to the full one and is not modelled.
- `logMilvusPayloadProbe` and every other logging call: they only write to the log.
- The `uploadFile` endpoint wrapper of `KnowledgeBaseController` only forwards to `KnowledgeBaseService.uploadAndProcess`, which is modelled.
- Milvus chunks left behind when a document is deleted, and the deletion of vectors: the vector store is not part of the model.
- DocumentService.ListDocuments: `%` and `_` inside the search text are matched literally; the SQL `LIKE` wildcard meaning of those characters is not modelled.
- CountDocuments: matches `%` and `_` literally, as ListDocuments does, where the `LIKE` query of src/main/java/com/heu/rag/core/repository/DocumentRepository.java:40 treats them as wildcards.
- SearchHits: matches `%` and `_` literally where the `LIKE` query of src/main/java/com/heu/rag/core/repository/KnowledgeBaseRepository.java:18 treats them as wildcards; the term "_" finds every non-empty name there and only names holding "_" here.
- SearchKnowledgeBases: inherits the literal matching of SearchHits.
- DocumentService.ListDocuments: `offset + limit` overflowing a 32-bit `int` is not modelled.
- The order of Mongo query results with equal sort keys: the model keeps storage order.
- A null `isEnabled` Boolean on a stored document: the model's flag is a plain `bool`.
- SnowflakeIdGenerator.ToLong: 64-bit wrap-around is modelled only where the id is packed; the other `long` arithmetic stays unbounded.
- GoUserHandler.Backend.UserRegister: does not model the 409 answer when the insert affects no row (backend/services/userHandler.go:252-254), because the modelled store always inserts a new user.
- The `err` detail fields of the Go 500 replies are dropped; only status and message are kept.
- `DeleteUser` and `GetUserNameBySession` of the Go user handler are not modelled.
- Text.ToLower: case folding and Go's `EqualFold` cover ASCII letters only, not the rest of Unicode.
- JavaScript numbers are modelled as integers.
- MilvusSanitizer.SanitizeMap: map entries are visited in stored order, where Java's `HashMap.entrySet()` follows hash order; the order of the warnings and the `keyIndex` of a dropped key may differ from Java's, while the sanitised documents do not depend on it. The same holds for MilvusSanitizer.CastKeys.
- SnowflakeIdGenerator.ParseLong: accepts ASCII digits only; `Long.parseLong` reads digits with `Character.digit`, which also takes the other Unicode decimal digits (such as U+0661), so such a property is a number-format error here and a number in Java. CreateDefault inherits the difference.
- GenerateTitle: lengths and the cut at 30 count characters (Unicode scalar values), where Java's `length()` and `substring` count UTF-16 units; a query with characters outside the Basic Multilingual Plane is cut later here, and a Java cut that splits a surrogate pair has no counterpart in a Dafny string.
- SafePreview: counts characters where Java counts UTF-16 units, with the same consequence as for GenerateTitle.
- ResolveConversation (GoChat and GoChatHandler): the update helper of backend/db/mongo.go:100-123 wraps the caller's update document in `$set` (line 105); the model applies the `$push`/`$addToSet` and `$set` operators the handlers write, and keeps the helper's error when nothing matches (lines 113-115).
- ResolveConversation (GoChat and GoChatHandler): `FindOneConversation` and `UpdateOneConversation` are not defined in backend/db/mongo.go; they are modelled on the message helpers beside them: a lookup of the first matching document that fails when there is none, and an update that replaces the document just found.
- JsonText.DecodeBody: a `\u` escape naming a surrogate code unit is rejected, and a surrogate pair is not combined into one character, because a Dafny character is a Unicode scalar value.
- React rendering, `navigate`, `console` output and toast display: the model records what would be shown, not how.
- The timestamp formatting of `ConversationDTO`.
- Spring's start-up check of ambiguous handler mappings.
- UserRepository.java is not part of this model; its derived queries are modelled from their method names.
- `SetStreamHeaders` of backend/services/chat.go:50-56 is identical to the one of backend/services/chatHandler.go:44-50 and is modelled once, as GoChatHandler.SetStreamHeaders.

## Findings

The operations follow the code as written, each through its as-written member; the corrected member of each row states the evidently intended behaviour and is proved beside it.

| source | as written | input that shows it | evidently intended | confidence | as-written member | corrected member |
|---|---|---|---|---|---|---|
| src/main/java/com/heu/rag/core/service/ChatService.java:494-504 | `escapeJson` escapes only backslash, quote, newline, carriage return and tab, so other control characters reach the JSON text raw | a chunk "a\u0008b" (a backspace) | every control character escaped, so that each chunk frame parses back to its text | not executed | ChatService.BackspaceBreaksEscapeJson | ChatService.EscapeJsonStrict |
| src/main/java/com/heu/rag/core/service/ChatService.java:120-138 | a conversation id that is not the caller's is looked up with the caller's id, misses, and is saved as a new conversation under that same id, replacing the other user's document | user 2 streams with the id of user 1's conversation | a fresh conversation that leaves other users' conversations alone | not executed | ChatService.ConversationHijackAsWritten | ChatService.ResolveConversationKeepsOthers |
| backend/services/userHandler.go:297-331 | the old sessions are deleted by the id of a user value whose id was never filled in (0), so they survive | a user who logs in twice | each login leaves exactly one session for the user | not executed | GoUserHandler.OldSessionSurvivesAsWritten | GoUserHandler.LoginLeavesOneSession |
| backend/services/userHandler.go:384-393 | the duplicate-key branch tests `gorm.ErrDuplicatedKey`, which the connection (backend/db/postgres.go:18-20) never produces without `TranslateError`, so a taken name or email is answered with 500 | changing the username to one another user holds | the "already taken" answer | not executed | GoUserHandler.ChangeReplyAsWritten | GoUserHandler.TakenValueRefused |
| src/main/java/com/heu/rag/core/controller/ChatController.java:61-63 | the error frame escapes only the quote, so a backslash or newline in the exception message breaks the JSON or the frame | an exception message `a\` | the message escaped as a JSON string, decoding back to itself | not executed | ChatController.ErrorFrameAsWrittenBreaks | ChatController.ErrorPayload |
