# libdcl, verified

This project models the algorithms and the concurrent protocols of libdcl, a C++ base library, and
proves what they are for. Every file is a module of its own name; `dafny verify dfyconfig.toml`
checks all of them.

- **MD5** (`Md5Spec`, `Md5Transform`, `Md5Context`, `Md5Traces`, `Md5Answers`, `Hex`): the definition of RFC 1321
  over words below 2^32; the unrolled transform with its optimised functions; the context with its
  64-byte buffer and its bit count in two words. Every way of cutting a message into updates gives the
  one-shot digest; the digests of "" and "abc" are those of the RFC, computed operation by operation.
- **Base64** (`Base64Spec`, `Base64`, `Streams`): the definition of section 4 of RFC 4648, with
  foreign characters skipped as in section 6.8 of RFC 2045; the encoder and decoder loops over a
  stream, their literal tables, and the decoding buffer that keeps stale bytes.
- **SQL placeholders** (`Query`), **UUID text** (`Uuid`), **locale lookup** (`Locmap`), **number
  parsing** (`Strtod`, `Numerals`, over exact reals), **trimming, splitting and int conversion** (`Strutils`).
- **Urls** (`UrlPath`, `UrlParts`, `UrlTexts`, `Url`): normalization as a stack fold; printing and parsing,
  with the exact set of urls that survive a round trip.
- **Reader/writer lock** (`RwLockSteps`, `RwLock`), **object pool** (`PoolSteps`, `PoolPlaces`,
  `PoolRuns`, `Pool`), **TCP server** (`TcpConnection`, `TcpSteps`, `TcpRuns`, `TcpStops`,
  `TcpSchedules`, `TcpSweeps`, `TcpServer`): each a transition system over one synchronisation call
  or one body under a mutex per step, with any number of threads, items, keys, pointers and
  connections; invariants over every run; and the code as imperative methods. The methods of the
  lock and of the server (a worker's round, accepting, `start`, `stop` and the two sweeps) are proved
  to be runs of their transition systems; where a thread waits, what the others do meanwhile is a
  parameter. The methods of the pool are proved against the functions that the steps of its
  transition system apply.

A class stands for an object of the source and its methods update the fields in place. The function
that specifies a method is about values, and the lemmas are about that function. `Octets`, `Options`
and `Sequences` hold what several modules use. Beside the laws that connect such functions there
are laws that state their outcomes in plain characters, bytes and events, without the tables and
predicates that a method shares with its specification.

Where the code and its documentation differ, the model follows the code:

- `MD5Final` clears `sizeof` a pointer, the first two words of the state: the other two, the count and
  the last block stay (`Md5Context.Context.Final`).
- A locale table of a single entry is never found by the binary search.
- `url::str` prints the at sign only after a password, so a user without a password is not read back
  (`UrlParts.UserOnlyIsNotReadBack`).
- `parse` keeps the fields of an earlier parse that the new text does not have
  (`UrlParts.ParsedAlone` says exactly when its outcome depends on the text alone).
- A pool can hold more items than its limit: free items of one key do not serve another, and a
  release gives back its count before its item. `PoolRuns.SizeWithinLimit` is the exact condition.
- A creation that throws keeps its count of the semaphore for ever.
- A request whose handler throws on a worker thread, or whose connect handler throws, is in no list
  any more; the model keeps it in a list of dropped requests (`TcpRuns.DroppedByThrowing`).
- What a connect handler writes is lost, because a new write buffer starts with its end-of-file flag.

Abstract in the model: the table of `getservbyname`; the bytes and outcomes of sockets and `select`;
the answers of handlers; the scheduling of threads; the literal locale tables (a parameter). A
`stringstream` has the flag rules of the C++11 library; `strtol` returns a 64-bit `long`; a pointer has
8 bytes, which is why `memset` with `sizeof` a pointer clears two words.

## Model

| member | source | states |
|---|---|---|
| Md5Spec.PaddedFillsBlocks | src/dcl/encoder_md5.cpp:120-147 | the padding of sections 3.1 and 3.2 of RFC 1321 (0x80, zeros, 64-bit count) always fills whole 64-byte blocks |
| Md5Transform.OptimisedF1 | src/dcl/encoder_md5.cpp:157 | the optimised F1 is the selection function F of section 3.4 of RFC 1321 on every triple of words |
| Md5Transform.OptimisedF2 | src/dcl/encoder_md5.cpp:158 | F2, which is F1 with rotated arguments, is the function G |
| Md5Transform.CoreIsAuxiliary | src/dcl/encoder_md5.cpp:156-160 | the core function of every step is the auxiliary function of its round |
| Md5Transform.StepIsOperation | src/dcl/encoder_md5.cpp:163-164 | one MD5STEP with wrapping additions in its order is one operation of the table-driven definition |
| Md5Transform.FourSteps | src/dcl/encoder_md5.cpp:177-240 | four steps with rotating registers are four operations with fixed ones |
| Md5Transform.Round1 | src/dcl/encoder_md5.cpp:177-192 | the 16 unrolled steps of round 1 are operations 0-15 |
| Md5Transform.Round2 | src/dcl/encoder_md5.cpp:193-208 | the 16 unrolled steps of round 2 are operations 16-31, with word index 5i+1 |
| Md5Transform.Round3 | src/dcl/encoder_md5.cpp:209-224 | the 16 unrolled steps of round 3 are operations 32-47, with word index 3i+5 |
| Md5Transform.Round4 | src/dcl/encoder_md5.cpp:225-240 | the 16 unrolled steps of round 4 are operations 48-63, with word index 7i |
| Md5Transform.Transform | src/dcl/encoder_md5.cpp:171-245 | for every state and block the in-place transform is the compression of section 3.4, added to the old state |
| Md5Context.CarriedCount | src/dcl/encoder_md5.cpp:85-88 | the two count words with the manual carry are the 64-bit bit count of the longer message, modulo 2^64 |
| Md5Context.BufferedCount | src/dcl/encoder_md5.cpp:89 | bits 3-8 of the low count word are the message length modulo 64, also after the count has wrapped |
| Md5Context.AbsorbBlock | src/dcl/encoder_md5.cpp:99-111 | absorbing one more block is one compression of its little-endian words |
| Md5Context.PaddedShort | src/dcl/encoder_md5.cpp:139-147 | with at most 55 buffered bytes the padded message ends in one more block |
| Md5Context.PaddedLong | src/dcl/encoder_md5.cpp:132-147 | with 56 or more buffered bytes the padded message ends in two more blocks |
| Md5Context.CountBytes | src/dcl/encoder_md5.cpp:143-146 | storing the two count words one after the other is storing the 64-bit little-endian count |
| Md5Context.LastBlockIsNotZero | src/dcl/encoder_md5.cpp:128-147 | the last block of a padded message is never all zeros |
| Md5Context.Context.constructor | src/dcl/encoder_md5.cpp:69-76 | the initial state is that of the empty message |
| Md5Context.Context.Count | src/dcl/encoder_md5.cpp:84-88 | MD5Update keeps the count of the whole message |
| Md5Context.Context.AbsorbFrom | src/dcl/encoder_md5.cpp:105-113 | the block loop and the last copy leave the state of all whole blocks and the tail in the buffer |
| Md5Context.Context.Buffer | src/dcl/encoder_md5.cpp:94-97 | an update that does not fill the buffer only extends the tail |
| Md5Context.Context.Fill | src/dcl/encoder_md5.cpp:98-102 | an update that fills the buffer absorbs tail and first bytes as one block |
| Md5Context.Context.Update | src/dcl/encoder_md5.cpp:82-114 | after any update the context represents the old message followed by the new bytes, empty updates included |
| Md5Context.Context.Pad | src/dcl/encoder_md5.cpp:128-143 | padding in the buffer leaves one last block of the padded message |
| Md5Context.Context.Final | src/dcl/encoder_md5.cpp:120-151 | the result is the one-shot digest; of the context only the first two words are cleared: the others stay the second half of the digest, the buffer stays the last block of the padded message and is never all zeros, and the registers are wiped if and only if the second half of the digest is zero |
| Md5Context.DigestOfChunks | src/dcl/encoder_md5.cpp:247-256 | however a message is cut into updates, empty ones included, the digest is the one-shot digest of the whole |
| Md5Context.Print | src/dcl/encoder_md5.cpp:257-259 | the signature is printed as two lower-case hexadecimal digits per byte |
| Md5Context.Encode | src/dcl/encoder_md5.cpp:247-260 | encode writes the hexadecimal digest of everything the stream still holds |
| Md5Answers.EmptyDigest | src/dcl/encoder_md5.cpp:156-260 | the digest of the empty message in section A.5 of RFC 1321, as 16 literal bytes |
| Md5Answers.AbcDigest | src/dcl/encoder_md5.cpp:156-260 | the digest of "abc" in section A.5 of RFC 1321, as 16 literal bytes |
| Md5Answers.EmptyText | src/dcl/encoder_md5.cpp:247-260 | what encode writes for an empty stream: d41d8cd98f00b204e9800998ecf8427e |
| Md5Answers.LongLength | src/dcl/encoder_md5.cpp:85-88 | the length in bits of 2^29 bytes stands in the high-order word of the padding |
| Md5Answers.Row2 | src/dcl/encoder_md5.cpp:193-208 | the order in which round 2 reads the 16 words, literally |
| Md5Answers.Row3 | src/dcl/encoder_md5.cpp:209-224 | the same for round 3 |
| Md5Answers.Row4 | src/dcl/encoder_md5.cpp:225-240 | the same for round 4 |
| Md5Traces.Empty64 | src/dcl/encoder_md5.cpp:171-240 | the registers after the 64 operations on the block of the empty message |
| Md5Traces.Abc64 | src/dcl/encoder_md5.cpp:171-240 | the registers after the 64 operations on the block of "abc" |
| Md5Traces.Four | src/dcl/encoder_md5.cpp:163-164 | four operations, given each sum and each new value of a register |
| Base64Spec.RoundTrip | src/dcl/codec_base64.cpp:82-135 | decoding the encoding of any byte string gives it back |
| Base64Spec.EncodingLength | src/dcl/codec_base64.cpp:82-103 | the encoding of n bytes has 4*ceil(n/3) characters |
| Base64Spec.ForeignCharactersIgnored | src/dcl/codec_base64.cpp:105-135 | decoding depends only on the alphabet characters of the text; everything else, "=" included, is skipped |
| Base64Spec.SymbolValue | src/dcl/codec_base64.cpp:50-55 | the value of the symbol of v is v |
| Base64Spec.BytesOfSextets | src/dcl/codec_base64.cpp:62-80 | four sextets cut from three bytes give the three bytes back |
| Base64Spec.Alphabet | src/dcl/codec_base64.cpp:50 | the symbols of the 64 values, literally |
| Base64Spec.Padding | src/dcl/codec_base64.cpp:62-68 | the encoding ends in two, one or no equals signs as the bytes modulo 3 are 1, 2 or 0, and has no others |
| Base64Spec.TestVectors | src/dcl/codec_base64.cpp:82-103 | the test vectors of section 10 of RFC 4648 up to "foo" |
| Base64Spec.LongerTestVectors | src/dcl/codec_base64.cpp:82-103 | the test vectors from "foob" to "foobar" |
| Base64.EncodingTable | src/dcl/codec_base64.cpp:50 | the literal table is the alphabet of section 4 of RFC 4648 |
| Base64.DecodingTable | src/dcl/codec_base64.cpp:55 | every entry of the shifted literal table is the value of its character plus 62, or the mark of a foreign character |
| Base64.EncodeBlock | src/dcl/codec_base64.cpp:62-68 | a block of 1 to 3 bytes, zero-filled, is encoded with its padding |
| Base64.DecodeBlock | src/dcl/codec_base64.cpp:75-80 | of n decoded sextets the first n-1 output bytes are right, whatever stale bytes follow them in the buffer |
| Base64.ReadGroup | src/dcl/codec_base64.cpp:86-95 | a group holds the next bytes of the stream and zeros after its end |
| Base64.Encode | src/dcl/codec_base64.cpp:82-103 | the encoder writes the encoding of what the stream still holds |
| Base64.TranslateIsValue | src/dcl/codec_base64.cpp:112-116 | range check, table lookup and offset give the value of an alphabet character plus one, and zero for any other character |
| Base64.NextValue | src/dcl/codec_base64.cpp:111-117 | the inner loop skips to the next alphabet character or to the end |
| Base64.ReadValues | src/dcl/codec_base64.cpp:109-127 | a group holds the next sextets of the stream, fewer than four only at its end |
| Base64.Decode | src/dcl/codec_base64.cpp:105-135 | the decoder writes the decoding of what the stream still holds, so stale buffer bytes never reach the output |
| Query.MarksAreParameters | src/dcl/query.cpp:50-95 | the rewritten statement has as many unquoted question marks as recorded parameters |
| Query.RewritingIsIdempotent | src/dcl/query.cpp:50-95 | parsing the result again returns it unchanged, with as many parameters |
| Query.NamesRestore | src/dcl/query.cpp:67-87 | putting the recorded names back restores the statement if and only if it has no unquoted colon without a name |
| Query.Statement.ScanName | src/dcl/query.cpp:76-81 | the inner scan, with the step back after it, consumes exactly the longest name |
| Query.Statement.Parse | src/dcl/query.cpp:50-95 | parse returns the rewritten text, and replaces the recorded parameters by those of this statement |
| Query.QuotedIsCopied | src/dcl/query.cpp:50-95 | a text between two single or two double quotes is copied with them and records nothing; what follows is outside again |
| Query.CopiedInside | src/dcl/query.cpp:50-95 | inside quotes colons and question marks are copied |
| Query.QuotesDoNotNest | src/dcl/query.cpp:59-66 | a double quote between single quotes opens quotes of its own: the text after the closing single quote is still copied |
| Query.NameIsRecorded | src/dcl/query.cpp:73-87 | outside quotes a colon and the letters, digits and underscores behind it become one question mark with that name, an empty one included |
| Query.MarkIsRecorded | src/dcl/query.cpp:67-72 | outside quotes a question mark is kept and records a parameter without a name |
| Query.OtherIsCopied | src/dcl/query.cpp:50-95 | outside quotes any other character is copied |
| Uuid.AssignedFromDigits | src/dcl/uuid.cpp:110-130 | assign depends only on the hexadecimal digits of its input |
| Uuid.RoundTrip | src/dcl/uuid.cpp:110-154 | assigning the text of any 16 bytes gives the bytes back |
| Uuid.OrderOfTexts | src/dcl/uuid.cpp:90-97 | values are ordered as their texts, and equal exactly when their texts are |
| Uuid.Id.constructor | src/dcl/uuid.cpp:70-72 | construction from a text assigns it |
| Uuid.Id.Clear | src/dcl/uuid.cpp:99-101 | clear sets every byte to zero |
| Uuid.Id.Empty | src/dcl/uuid.cpp:103-108 | empty holds exactly when every byte is zero |
| Uuid.Id.Assign | src/dcl/uuid.cpp:110-130 | pairs of digits fill the bytes, an odd last digit is a byte of its own, digits past the 32nd are ignored, missing bytes are zero |
| Uuid.Id.Str | src/dcl/uuid.cpp:146-154 | the text has two lower-case digits per byte and hyphens after bytes 3, 5, 7 and 9 |
| Uuid.Id.Equals | src/dcl/uuid.cpp:90-92 | equality of the 16 bytes |
| Uuid.Id.LessThan | src/dcl/uuid.cpp:94-97 | lexicographic order of the 16 bytes |
| Uuid.TextShape | src/dcl/uuid.cpp:146-154 | the text has 36 characters: hyphens at positions 8, 13, 18 and 23, lower-case hexadecimal digits elsewhere |
| Uuid.CaseIsIgnored | src/dcl/uuid.cpp:110-130 | a text in upper case assigns the same value |
| Uuid.OthersAreSkipped | src/dcl/uuid.cpp:113-118 | a character that is no hexadecimal digit makes no difference, wherever it stands |
| Uuid.FirstByte | src/dcl/uuid.cpp:119-123 | of two digits the first counts sixteen times |
| Uuid.FirstDifferenceDecides | src/dcl/uuid.cpp:94-97 | the smaller value is the one with the smaller byte at the first difference |
| Locmap.IdCmp | src/dcl/win32/locmap.c:753-763 | the number of equal leading characters; the second string is used up exactly when it is a prefix of the first |
| Locmap.GetHostID | src/dcl/win32/locmap.c:773-804 | the first exactly matching region, else the longest region that is a prefix, with the status that the character after it decides |
| Locmap.FindLanguage | src/dcl/win32/locmap.c:920-940 | the binary search terminates; what it finds is the language; on an ascending table it misses no language, except that a table of one entry is never searched |
| Locmap.ConvertToLCID | src/dcl/win32/locmap.c:900-965 | incomplete identifiers give 0; otherwise the entry of the language decides, or all entries in turn; untouched status means an exactly matching region, on any table |
| Locmap.SearchAll | src/dcl/win32/locmap.c:946-964 | the linear search takes the first exact match, else the last fallback |
| Locmap.FallbackTakesLongestSeparated | src/dcl/win32/locmap.c:781-799 | the fallback is the longest region that ends before a separator if and only if no longer region is a prefix |
| Locmap.HiddenFallback | src/dcl/win32/locmap.c:783-799 | a concrete identifier whose fallback is hidden by a longer prefix that ends inside a word |
| Locmap.HostOfStatus | src/dcl/win32/locmap.c:784-803 | the status is untouched exactly for an exact match, and fallback exactly when a separator follows the longest prefix |
| Locmap.CompareDecides | src/dcl/win32/locmap.c:926-935 | the order of the search is the ascending one: the first difference decides, and a string comes before its continuations |
| Locmap.WhatSeparates | src/dcl/win32/locmap.c:797-799 | a region stands for its ID followed by an underscore or an at sign, and by no other character |
| Locmap.EmptyIsIllegal | src/dcl/win32/locmap.c:773-804 | the empty identifier is never found, not even where a region has it |
| Locmap.LastFallbackDecides | src/dcl/win32/locmap.c:946-964 | without an exact match the last entry with a fallback decides |
| Locmap.FallbackLost | src/dcl/win32/locmap.c:946-964 | a fallback to the host ID 0xFFFFFFFF is taken as none |
| RwLockSteps.StepKeepsInv | src/dcl/win32/rwlock_impl.cpp:43-65 | every call of every client conserves the 64 tokens, and only the mutex owner collects |
| RwLockSteps.TokensConserved | src/dcl/win32/rwlock_impl.cpp:43-65 | in every reachable state semaphore, readers, collected tokens and 64 per writer add up to 64 |
| RwLockSteps.WriterExcludes | src/dcl/win32/rwlock_impl.cpp:52-57 | a writer inside excludes every reader and every other writer |
| RwLockSteps.LeaveFits | src/dcl/win32/rwlock_impl.cpp:49-65 | leaving never asks ReleaseSemaphore to exceed its maximum |
| RwLockSteps.NoDeadlock | src/dcl/win32/rwlock_impl.cpp:52-57 | in every reachable state with a blocked client another client has an enabled call |
| RwLockSteps.AdvancesDoWork | src/dcl/win32/rwlock_impl.cpp:43-65 | each call without new arrivals reduces the calls left to make by one |
| RwLockSteps.ArrivedClientsGetOut | src/dcl/win32/rwlock_impl.cpp:43-65 | without new arrivals the calls are bounded in number, and when none can return every client is outside |
| RwLockSteps.WhenEntering | src/dcl/win32/rwlock_impl.cpp:43-57 | in every reachable state a waiting reader can enter if and only if fewer than 64 tokens are held, and a writer enters with 64 tokens |
| RwLock.ScheduleStep | src/dcl/win32/rwlock_impl.cpp:43-57 | a wait returns in a state that the other clients have made, with its object available |
| RwLock.Lock.constructor | src/dcl/win32/rwlock_impl.cpp:35-38 | 64 tokens, a free mutex, all clients outside |
| RwLock.Lock.Perform | src/dcl/win32/rwlock_impl.cpp:43-65 | each call updates the fields as its step does |
| RwLock.Lock.Wait | src/dcl/win32/rwlock_impl.cpp:44-55 | while one client waits the fields follow any run of the others |
| RwLock.Lock.EnterRead | src/dcl/win32/rwlock_impl.cpp:43-45 | enter_read is a run of the transition system and ends with the caller reading |
| RwLock.Lock.LeaveRead | src/dcl/win32/rwlock_impl.cpp:49-51 | leave_read gives one token back and keeps the invariant |
| RwLock.Lock.EnterWrite | src/dcl/win32/rwlock_impl.cpp:52-57 | enter_write with its 64-round loop is a run of the transition system and ends with the caller writing |
| RwLock.Lock.LeaveWrite | src/dcl/win32/rwlock_impl.cpp:63-65 | leave_write raises the count from 0 to 64 |
| Strtod.LongestNumeral | src/dcl/strutils.cpp:221-285 | the scanner takes the longest numeral at the beginning of the text, and it is the only numeral of that length |
| Strtod.LongestIsConverted | src/dcl/strutils.cpp:211-312 | the result is sign * digits * 10^(exponent - decimals) of the longest numeral |
| Strtod.WhenItThrows | src/dcl/strutils.cpp:257-289 | the exception is thrown exactly when no numeral begins the text or the adjusted exponent is out of DBL_MIN_EXP..DBL_MAX_EXP |
| Strtod.PowerOfSquare | src/dcl/strutils.cpp:303-304 | the n-th power of a square is the 2n-th power |
| Strtod.ScaleStep | src/dcl/strutils.cpp:295-305 | one round over a bit of the exponent keeps what remains to be scaled |
| Strtod.Scale | src/dcl/strutils.cpp:291-305 | repeated squaring over the bits of the absolute exponent multiplies or divides by the power of ten |
| Strtod.ReadDigits | src/dcl/strutils.cpp:236-252 | a digit loop continues the number read so far to the end of the digits |
| Strtod.ReadLead | src/dcl/strutils.cpp:221-229 | white space is skipped and one sign read |
| Strtod.ReadNumber | src/dcl/strutils.cpp:273-278 | the digit loop of the exponent reads its digits as a whole number |
| Strtod.ReadMantissa | src/dcl/strutils.cpp:221-262 | sign and digits before and after the point, as one whole number |
| Strtod.ReadExponent | src/dcl/strutils.cpp:264-284 | mark, sign and digits of the exponent |
| Strtod.StrToD | src/dcl/strutils.cpp:211-312 | my_strtod computes the meaning of the scanned numeral, over exact reals |
| Numerals.SignedNumber | src/dcl/strutils.cpp:225-229 | for every text that begins with a digit or a point, a minus in front negates the number and a plus does not; its end moves by one |
| Numerals.WhiteIsSkipped | src/dcl/strutils.cpp:221-223 | white space in front of any text moves the end of its number and nothing else |
| Numerals.SpelledNumber | src/dcl/strutils.cpp:211-312 | for digits w, f and k with any of the optional point, mark and signs: the number of w and f together, times or divided by the power of ten of the exponent less the decimals; refused if and only if that exponent is below -1021 or above 1024 |
| Numerals.NumberEnds | src/dcl/strutils.cpp:236-262 | digits are converted up to the first character that does not continue the number |
| Numerals.NothingToConvert | src/dcl/strutils.cpp:257-262 | a text that begins with no character of a number is refused |
| Numerals.SpelledExample | src/dcl/strutils.cpp:211-312 | 12.5e-1 is 1.25 |
| Numerals.SignedExample | src/dcl/strutils.cpp:211-312 | the same with a space and a minus in front |
| Strutils.TrimmedIsUnique | src/dcl/strutils.cpp:35-46 | the trimmed text is the only part with nothing but delimiters around it and none at its ends |
| Strutils.Trim | src/dcl/strutils.cpp:35-46 | trim returns the trimmed text, the empty text if there are only delimiters |
| Strutils.FieldsOfJoined | src/dcl/strutils.cpp:56-67 | splitting a text joined from trimmed parts without the delimiter gives the parts back |
| Strutils.FieldsAreSeparable | src/dcl/strutils.cpp:56-67 | every token is trimmed and holds no delimiter |
| Strutils.Tokenize | src/dcl/strutils.cpp:56-67 | tokenize returns the trimmed texts between delimiters, nothing for the empty text |
| Strutils.DecimalRoundTrip | src/dcl/strutils.cpp:172-317 | every int printed with %d is read back by strtol with base 0 |
| Strutils.BlanksAreCut | include/dcl/strutils.h:58-63 | space, tab, carriage return and line feed are cut off at the ends of a text, and nothing else |
| Strutils.TokensAreCut | src/dcl/strutils.cpp:56-67 | each delimiter ends a token, trimmed by itself, empty ones included |
| Strutils.StrtolSigns | src/dcl/strutils.cpp:314-317 | strtol skips white space; a minus negates and a plus does not |
| Strutils.StrtolBases | src/dcl/strutils.cpp:314-317 | the base follows from 0x, 0 or neither, and a character that is no digit of it ends the number |
| Strutils.LongToInt | src/dcl/strutils.cpp:314-317 | an int takes the low-order 32 bits of the saturated long |
| UrlPath.ScanStep | src/dcl/url.cpp:239-260 | one step of the right-to-left scan keeps: what is written, after what the tokens before still yield less the skipped segments, is the left-to-right result |
| UrlPath.NormalizedIsPlain | src/dcl/url.cpp:225-261 | a normalized path holds only trimmed segments without slashes, none of them empty or a dot segment |
| UrlPath.NormalizeIdempotent | src/dcl/url.cpp:225-261 | normalizing any normalized path against "/" changes nothing, whatever it was first normalized against |
| UrlPath.SegmentAppended | src/dcl/url.cpp:225-261 | a segment is appended to the base path, with or without one slash or backslash before it |
| UrlPath.DotSegments | src/dcl/url.cpp:239-260 | one dot stays, two dots go up, an empty segment goes back to the root |
| Url.Url.Normalize | src/dcl/url.cpp:225-261 | the right-to-left scan with the skip counter computes the left-to-right stack fold |
| Url.Url.constructor | src/dcl/url.cpp:40-58 | an empty url, or one parsed from a text |
| Url.Url.ParseUser | src/dcl/url.cpp:101-112 | user and password are split off the host in place |
| Url.Url.ParsePort | src/dcl/url.cpp:113-120 | the port is split off the host in place |
| Url.Url.ParseResource | src/dcl/url.cpp:121-136 | parameters, fragment and query are cut off the text, in this order |
| Url.Url.Parse | src/dcl/url.cpp:60-142 | parse sets the fields that the text has and keeps the others |
| Url.Url.GetFullPath | src/dcl/url.cpp:145-160 | the full path is printed part by part |
| Url.Url.Str | src/dcl/url.cpp:263-289 | str prints all parts; the at sign follows a password only |
| UrlParts.RoundTrip | src/dcl/url.cpp:60-289 | parsing the printed url into a fresh one gives it back field by field if and only if it is canonical, for every url and service table |
| UrlParts.AuthorityReadBack | src/dcl/url.cpp:96-120 | user, password, host and port come back if and only if they hold no delimiter read before them, user and password are both empty or both not, and the port is the default or printed |
| UrlParts.ResourceReadBack | src/dcl/url.cpp:121-142 | path, query, fragment and parameters come back if and only if none holds a delimiter that is cut before it |
| UrlParts.PortReadBack | src/dcl/url.cpp:96-120 | the port comes back if and only if it is the default of the scheme or it is positive, the host is not empty and the scheme is a service |
| UrlParts.FileReadBack | src/dcl/url.cpp:60-142 | a file url comes back if and only if it has a host without slashes and a path, and nothing else |
| UrlParts.ParsedText | src/dcl/url.cpp:60-94 | host and path are cut apart where the printer joined them |
| UrlParts.HostCutShort | src/dcl/url.cpp:101-112 | an at sign that no user text accounts for makes the host that is read shorter than the one printed |
| UrlParts.ParsedShape | src/dcl/url.cpp:60-142 | what parsing a fresh url can yield: a rooted path, no delimiters in the fields |
| UrlParts.ResourceKept | src/dcl/url.cpp:121-142 | a part that a text does not have keeps the value of an earlier parse |
| UrlParts.ParsedAlone | src/dcl/url.cpp:60-142 | parsing into a used url yields what parsing into a fresh one does if and only if every part that the text does not supply is empty in it, for every url, text and service table |
| UrlParts.AuthorityParsedAlone | src/dcl/url.cpp:96-120 | the same for user, password and port |
| UrlParts.ResourceParsedAlone | src/dcl/url.cpp:121-142 | the same for query, fragment and parameters |
| UrlParts.SecondParseKeeps | src/dcl/url.cpp:60-142 | two texts, the second of which leaves host and query of the first |
| UrlParts.UserOnlyIsNotReadBack | src/dcl/url.cpp:263-289 | a url with a user and no password is printed without the at sign and read back with the user as part of the host |
| UrlTexts.DefaultPortIsSilent | src/dcl/url.cpp:274-283 | the default port of a scheme leaves no trace in the text, nor does any port of a scheme that is not a service or of a url without a host |
| UrlTexts.OtherPortIsPrinted | src/dcl/url.cpp:274-283 | any other positive port of a service stands behind the host, a colon and its decimal digits |
| UrlTexts.FullLayout | src/dcl/url.cpp:263-289 | the text of a url with all parts, delimiter by delimiter |
| UrlTexts.SchemeLength | src/dcl/url.cpp:72-85 | a text before a colon and two slashes is a scheme if and only if it has more than two characters |
| UrlTexts.SchemeSlashes | src/dcl/url.cpp:72-85 | without two slashes behind the colon there is no scheme |
| UrlTexts.PathFromRoot | src/dcl/url.cpp:137-142 | a text without a colon becomes a path from the root, with one slash in front |
| UrlTexts.AuthorityAndPath | src/dcl/url.cpp:86-94 | behind the scheme the text is cut at its first slash |
| UrlTexts.FileUrl | src/dcl/url.cpp:86-95 | of a file url only host and path are read |
| UrlTexts.UserWithoutPassword | src/dcl/url.cpp:101-120 | a user without a password is split off and an earlier password stays; an empty port leaves the port of the service |
| UrlTexts.ResourceCut | src/dcl/url.cpp:121-142 | path, query, fragment and parameters behind their delimiters are read as such |
| PoolSteps.StepMovesHoldings | include/dcl/pool.h:112-172 | each step moves what it moves between pointers and threads and nothing else; copying and assignment move, never duplicate |
| PoolSteps.StepConservesKey | include/dcl/pool.h:112-130 | each step keeps: free items plus handed out items of a key are the items created under it |
| PoolSteps.StepKeepsLimited | include/dcl/pool.h:36-43 | each step keeps the balance of the semaphore |
| PoolSteps.StepKeepsReferring | include/dcl/pool.h:151-172 | a pointer under destruction or assignment is served by exactly one thread |
| PoolPlaces.StepKeepsPlaces | include/dcl/pool.h:112-172 | each step keeps every item in its one place |
| PoolRuns.ExactlyOnePlace | include/dcl/pool.h:112-172 | in every interleaving each item of _all is in exactly one place, under the key it was created with, and at most once in its queue |
| PoolRuns.OnlyCreatedItems | include/dcl/pool.h:112-172 | nothing but items of _all is ever queued, owned or held |
| PoolRuns.SemaphoreConserved | include/dcl/pool.h:36-43 | with the limited policy count, callers between lock() and unlock(), and creations that threw add up to the limit |
| PoolRuns.CreationMeetsDemand | include/dcl/pool.h:115-120 | an item is created only when all items of its key are handed out |
| PoolRuns.CreatedIsPeak | include/dcl/pool.h:112-130 | over any run the number of items created under a key is the largest number handed out at a time |
| PoolRuns.InUseIsHeld | include/dcl/pool.h:97-104 | in_use() is the number of items owned or in the middle of an operation; with no operation in progress, the number owned |
| PoolRuns.OnlyLimitBlocks | include/dcl/pool.h:112-130 | when no thread can go on, each is idle or waits in lock() while pointers and failed creations use up the whole limit |
| PoolRuns.SizeIsCreations | include/dcl/pool.h:93-120 | size() is the number of creations of the run: no item ever leaves the pool |
| PoolRuns.SizeWithinLimit | include/dcl/pool.h:112-130 | in every reachable state of a limited pool size() is within the limit if and only if the items free or on their way back are no more than the counts without an item: of the semaphore, of arriving threads and of failed creations; with no operation in progress, if and only if the free items are no more than the counts left |
| PoolRuns.CreationExceedsLimit | include/dcl/pool.h:115-120 | the branch that creates takes size() past the limit if and only if every count without an item is matched by an item that lies free or is on its way back; no other step changes size() |
| PoolRuns.SizeExceedsLimit | include/dcl/pool.h:125-130 | a run past the limit with a release in flight, between unlock and push |
| PoolRuns.TwoKeysExceedLimit | include/dcl/pool.h:112-130 | a run past the limit of one thread and two keys, with no release in flight: a free item of another key is not reused |
| PoolRuns.FirstReleasedIsReused | include/dcl/pool.h:112-130 | over any run the free items of a key come back in the order in which they were released |
| Pool.Pool.AcquireItem | include/dcl/pool.h:112-124 | the first free item of the key, else a new one |
| Pool.Pool.ReleaseItem | include/dcl/pool.h:125-130 | the item joins the end of the queue of the key |
| Pool.Pool.InUse | include/dcl/pool.h:97-104 | the loop over the queues subtracts every free item |
| Pool.Pool.Acquire | include/dcl/pool.h:89-91 | acquire returns a pointer that owns the acquired item under its key |
| Pool.PoolPtr.Copy | include/dcl/pool.h:156-160 | a copy takes over, and the source is left with nothing |
| Pool.PoolPtr.Assign | include/dcl/pool.h:162-172 | assignment gives back once what was owned and takes over; assigned to itself a pointer ends with nothing |
| Pool.PoolPtr.Destroy | include/dcl/pool.h:151-155 | destruction gives back what is owned |
| TcpConnection.WriteKeepsValid | src/dcl/tcp_server.cpp:279-310 | bytes sent and pending stay the bytes accepted over every outcome of a write: partial, complete, would-block, error, exception |
| TcpConnection.ReadKeepsValid | src/dcl/tcp_server.cpp:252-277 | the same for a read, which clears the flags of the write buffer and runs the handler |
| TcpConnection.BytesConserved | src/dcl/tcp_server.cpp:252-310 | for every connection and every run of its events, bytes sent followed by bytes pending are the bytes the buffer accepted; and a connection that may be destroyed has sent them all or has an error latched |
| TcpConnection.GreetingRefused | include/dcl/tcp_server.h:146-150 | what a connect handler inserts is refused, because a new buffer starts at its end |
| TcpConnection.WhenClosing | src/dcl/tcp_server.cpp:252-310 | a read closes a connection if and only if it fails or the handler answers so; a write never does |
| TcpConnection.WhenAccepted | src/dcl/tcp_server.cpp:262-271 | data revive a stream at its end or in error, so that what their handler inserts is accepted; a later handler is heard only while the stream is good |
| TcpConnection.ErrorIsLatched | src/dcl/tcp_server.cpp:297-298 | after a failed write nothing more is sent until data arrive |
| TcpConnection.ClosingDrains | src/dcl/tcp_server.cpp:287-304 | once a closing connection has sent all it had, the next round of writing makes it ready to be destroyed |
| TcpSteps.StepKeepsLocking | src/dcl/tcp_server.cpp:116-371 | each critical section is run by the holder of the mutex alone |
| TcpSteps.StepKeepsAwake | src/dcl/tcp_server.cpp:204-207 | each step keeps the workers awake while there is work or the server stops |
| TcpSteps.StepKeepsJoined | src/dcl/tcp_server.cpp:62-103 | each step keeps the record of which threads are out in each phase of start() and stop() |
| TcpRuns.StepMoves | src/dcl/tcp_server.cpp:110-371 | one step moves a request from one place to another, and only accepting creates one |
| TcpRuns.ExactlyOnePlace | src/dcl/tcp_server.cpp:110-371 | in every interleaving each request is in exactly one place: a_reqs, reqs, one worker, the accepting I/O thread, destroyed, or dropped by a handler that threw |
| TcpRuns.NeverTouchedAgain | src/dcl/tcp_server.cpp:110-114 | no step touches a request that was destroyed or dropped |
| TcpRuns.ConnectionStep | src/dcl/tcp_server.cpp:183-371 | a step changes no request but the one it touches |
| TcpRuns.ClosingIsForGood | src/dcl/tcp_server.cpp:252-277 | CLOSING is absorbing over every run |
| TcpRuns.RequestsAreSound | src/dcl/tcp_server.cpp:143-211 | a closing request is never in reqs; a destroyed one was closing and has sent all it accepted unless a write error is latched; the bytes of every request add up |
| TcpRuns.DroppedByThrowing | src/dcl/tcp_server.cpp:231-244 | over any run a request is dropped if and only if a handler threw on it, on the worker that held it or when it was accepted; it is then in no other place |
| TcpRuns.NoLostWakeUp | src/dcl/tcp_server.cpp:337-351 | with the mutex free, work in reqs means no parked worker; a worker parked while the server stops is still to be woken by stop() |
| TcpRuns.StoppedHoldsNothing | src/dcl/tcp_server.cpp:85-103 | once stop() has joined all threads no thread holds a request or the mutex |
| TcpRuns.NoDeadlock | src/dcl/tcp_server.cpp:62-103 | while start() or stop() has not returned some thread can go on |
| TcpRuns.ClosedByReadOrHandler | src/dcl/tcp_server.cpp:252-277 | over any run a request is closing if and only if one of its reads failed or a handler has answered so on it, in either thread |
| TcpRuns.WhenHandedOver | src/dcl/tcp_server.cpp:183-211 | in every reachable state the I/O thread hands a request over if and only if it had an event, no exception was thrown and it is not closing by then |
| TcpRuns.WhenAccepting | src/dcl/tcp_server.cpp:223-230 | a client is accepted if and only if a_reqs is within the limit |
| TcpRuns.WhenChecking | src/dcl/tcp_server.cpp:343-351 | a worker leaves a stopped server whatever is queued, else waits if nothing is, else takes a request |
| TcpRuns.FirstComeFirstServed | src/dcl/tcp_server.cpp:201-207 | over any run the workers take the requests in the order in which they were handed over |
| TcpStops.RunStops | src/dcl/tcp_server.cpp:85-103 | once stop() has set its flag every step of every thread lowers a rank |
| TcpStops.StopReturns | src/dcl/tcp_server.cpp:85-103 | from every reachable state in which stop() has set its flag the further steps of all threads are bounded in number, whatever sockets and handlers answer, and none is left if and only if stop() has returned |
| TcpSchedules.OthersStay | src/dcl/tcp_server.cpp:116-371 | what the other threads do leaves a thread where it is, but for waking it |
| TcpSchedules.Proceeds | src/dcl/tcp_server.cpp:116-371 | a thread waits, the others make any run, and its next step is one of the transition system |
| TcpSweeps.SweepSplits | src/dcl/tcp_server.cpp:141-152 | the first sweep deletes exactly the closing requests whose buffer is at its end |
| TcpSweeps.ServicedStep | src/dcl/tcp_server.cpp:185-210 | a round of the second sweep, with its wake-up call, advances the sweep by one request |
| TcpSweeps.ServedOnce | src/dcl/tcp_server.cpp:183-211 | in the second sweep each request gets its own events once, and no other request changes |
| TcpServer.StringStream.Tellg | src/dcl/tcp_server.cpp:284-286 | tellg() fails on a stream that is not good, and then sets its flag |
| TcpServer.StringStream.Seekg | src/dcl/tcp_server.cpp:285-293 | seekg() clears the end-of-file flag, and moves only a stream without failure |
| TcpServer.StringStream.Read | src/dcl/tcp_server.cpp:291-292 | read() takes what is there, and falls short only with two flags set |
| TcpServer.StringStream.Insert | src/dcl/tcp_server.cpp:266-271 | inserted bytes are accepted only while the stream is good |
| TcpServer.Request.constructor | include/dcl/tcp_server.h:146-150 | a new request is not closing and its buffer is at its end |
| TcpServer.Request.Handle | src/dcl/tcp_server.cpp:266-271 | a handler inserts bytes and may close the connection |
| TcpServer.Request.ConnectionWrite | src/dcl/tcp_server.cpp:279-310 | the calls on the stream, seeking to the end and back, write what is pending, for every stream state |
| TcpServer.Request.ConnectionRead | src/dcl/tcp_server.cpp:252-277 | flags are cleared before the handler runs; errors and verdicts close |
| TcpServer.Server.constructor | src/dcl/tcp_server.cpp:47-56 | a server starts stopped, with no thread running and no request |
| TcpServer.Server.CloseOne | src/dcl/tcp_server.cpp:143-152 | one round of the first sweep |
| TcpServer.Server.CloseDrained | src/dcl/tcp_server.cpp:139-161 | the first sweep in place is a run of the transition system, and splits a_reqs |
| TcpServer.Server.ServeOne | src/dcl/tcp_server.cpp:186-209 | one round of the second sweep |
| TcpServer.Server.ServeReady | src/dcl/tcp_server.cpp:181-211 | the second sweep in place, also when an exception ends it, is a run of the transition system |
| TcpServer.Server.Await | src/dcl/tcp_server.cpp:116-371 | a waiting thread comes back where it was, but for being woken, with its next step possible, and that step goes on with the run |
| TcpServer.Server.AwaitWorker | src/dcl/tcp_server.cpp:343-363 | a worker that waits for the mutex or in wait() comes back in its place or woken |
| TcpServer.Server.AwaitIo | src/dcl/tcp_server.cpp:116-250 | the I/O thread that waits for the mutex comes back in its place |
| TcpServer.Server.AwaitOwner | src/dcl/tcp_server.cpp:62-103 | start() and stop() wait for the mutex and for threads with the flag and the sockets as they left them |
| TcpServer.Server.EnterTest | src/dcl/tcp_server.cpp:343-346 | the worker gets the mutex, first or after a wait, and comes to its test |
| TcpServer.Server.TakeRequest | src/dcl/tcp_server.cpp:343-351 | the loop around wait() ends with a request taken, or with the worker out because the server stops |
| TcpServer.Server.ProcessRequest | src/dcl/tcp_server.cpp:352-358 | the handler of a worker; a throw leaves the request behind |
| TcpServer.Server.ReturnRequest | src/dcl/tcp_server.cpp:359-363 | the request goes back to the active ones |
| TcpServer.Server.WorkingProcess | src/dcl/tcp_server.cpp:337-371 | one round of a worker, with its waits, is a run of the transition system among any steps of the others; the request taken ends in a_reqs, or dropped if the handler throws |
| TcpServer.Server.ConnectionAccept | src/dcl/tcp_server.cpp:223-250 | accepting, with both critical sections, is a run of the transition system; the request is queued, or dropped if the connect handler throws |
| TcpServer.Server.AcceptClient | src/dcl/tcp_server.cpp:231-244 | the request between the critical sections |
| TcpServer.Server.LockToPush | src/dcl/tcp_server.cpp:245-247 | the I/O thread gets the mutex for the second critical section |
| TcpServer.Server.PushAccepted | src/dcl/tcp_server.cpp:245-249 | the second critical section queues the request |
| TcpServer.Server.Start | src/dcl/tcp_server.cpp:62-83 | start() is a run of the transition system and ends with the server running |
| TcpServer.Server.Launch | src/dcl/tcp_server.cpp:78-82 | the workers start one by one, then the listening thread |
| TcpServer.Server.Stop | src/dcl/tcp_server.cpp:85-103 | stop() is a run of the transition system and ends with every thread out |
| TcpServer.Server.RaiseAndJoin | src/dcl/tcp_server.cpp:94-97 | the broadcast and the wait for the listening thread |
| TcpServer.Server.JoinWorkers | src/dcl/tcp_server.cpp:98-100 | the wait for each worker |

## Left out

- Strtod.StrToD: rounding, HUGE_VAL and the overflow of the exponent accumulator are not modelled; reals and integers are exact.
- Locmap.ConvertToLCID: the literal tables are a parameter, and a host ID equal to the "no fallback" mark is taken as such.
- Uuid.Id.constructor: `generate`, which fills a new value from the clock and `rand`, is not modelled.
- Pool.Pool.AcquireItem: blocking in `lock()` is in the transition system; the method starts when the wait is over.
- TcpSteps.StepKeepsLocking: which sockets `select` watches is not modelled; any choice of ready sockets is allowed, also one that was not watched.
- TcpServer.Request.ConnectionRead: the read buffer and its discarding are not modelled; they depend on what the handler did to the flags of the stream.
- TcpStops.StopReturns: handlers are taken to return or throw; exceptions other than those of the library, or without an exception handler, end the process and are not modelled. Neither are an exception of the disconnect handler or a failed `select`, which lie outside the `try` and end the I/O thread even with an exception handler.
- `start` and `stop` are called by one thread; two threads that call `stop` at once, and a `start` that fails to bind its sockets, are not modelled.
- PoolSteps.StepKeepsReferring: threads are taken not to use a pointer that another thread is assigning from or to, or destroying; `pool_ptr` has no lock of its own.
- `try_enter_read`, `try_enter_write` and the POSIX reader/writer lock: their results do not follow from the protocol modelled here.
- `getPosixID` and `convertToPosix`: the loop of the first runs one past its table.
- `url::encode`, `url::decode`, `url::copy_from`, and the replacement of backslashes on Windows.
- `http_server`, delegates, plugins, GUI, ODBC calls, daemons, translations, dates and configuration files.
