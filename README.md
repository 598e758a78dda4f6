# HanziLaoshi learning core, modelled in Dafny

HanziLaoshi is a web app for learning HSK Chinese vocabulary. This project
models the logic behind its learning screens:

- **Flashcard session** (`Flashcards`). A cursor moves over one page of
  vocabulary. There are three answer counters ("known", "unsure", "unknown").
  A page completes on its last card, and the level graduates when that page is
  the level's last. Swipes and taps move the cursor and flip the card. Restart
  resets the session. The component is the class
  `Flashcards.FlashcardClient`, whose handlers update its fields in place.
  Each handler is proved to follow a transition function on `Session` values.
  Lemmas about whole runs of actions show three things: the cursor stays on a
  card, the counters count the answers given since the last restart, and a
  page reached through the screen completes only on its last card.
- **Pagination** (`Pagination`). Four page buttons and a text box. A typed
  page is read with JavaScript `parseInt`. It navigates when in range;
  otherwise the box is reset to the current page. The box is the class
  `Pagination.PageInput`.
- **Home-page statistics** (`UserStats`). `getUserStats` builds six level
  buckets from the `vocabulary_progress` rows. The page has a fallback for an
  empty result, and the greeting name comes from `full_name` or the email.
- **Level sidebar** (`LevelSidebar`). Level links with progress, the
  selected level's detail panel and the footer totals.
- **Auth callback** (`AuthCallback`). `GET /auth/callback` exchanges a PKCE
  code or verifies an email OTP, then redirects with the used-up parameters
  removed and a message or error set. The two auth provider calls are
  function parameters.
- **Audio source rule** (`AudioSource`). The rule shared by the vocabulary
  card and the flashcard view. An empty link is an error. An `http...` link
  goes through the same-origin proxy as an encoded query value. Any other
  link is used as is.

The JavaScript built-ins these rely on are modelled with the behaviour the
code depends on:

- Integer-to-string conversion (the Number::toString operation of ECMA-262)
  and `parseInt` (ECMA-262 section 19.2.5, the parseInt function)
  (`JsNumbers`).
- `encodeURIComponent` and `decodeURIComponent` over UTF-8 (`UriEncoding`), as
  in ECMA-262 section 19.2.6 (the URI handling functions) and section 2.1 of
  RFC 3986.
- `URLSearchParams` `get`, `delete` and `set` on an ordered list of name/value
  pairs (`SearchParams`), as in the WHATWG URL standard.
- `split("@")[0]` and `replace('text', 'bg')` (`Strings`).

`getUserStats` is modelled as written. The learn page's `getUserStats`
(`app/(user)/learn/actions.ts:97`) computes `new` as
`total − (mastered + learning)`, so there the three counts always add up to
the total. The home page's version (`app/page.tsx:23`) instead takes
`100 * level` minus the number of rows at the level. There
`new + learning + mastered` equals the total only when no row at that level
has a mastery of 0 or less (or null). `UserStats.BucketSums` proves the exact
relation.

## Model

| member | source | states |
|---|---|---|
| Flashcards.Bump | web-app/components/learn/FlashcardClient.tsx:178-184 | mastered increments `known`, learning `unsure`, new `unknown`; exactly one counter goes up, by one, and the others are unchanged |
| Flashcards.NextCardState | web-app/components/learn/FlashcardClient.tsx:194-204 | advancing the cursor leaves the counters unchanged |
| Flashcards.PrevCardState | web-app/components/learn/FlashcardClient.tsx:222-227 | going back leaves the counters and the completed flag unchanged |
| Flashcards.AnswerState | web-app/components/learn/FlashcardClient.tsx:177-192 | an answer bumps its status's counter, then advances as `goToNextCard` does |
| Flashcards.StatusWriteFor | web-app/components/learn/FlashcardClient.tsx:186-189 | a status write is requested exactly when the cursor is on a card, and it names that card's id and the answered status |
| Flashcards.SwipeOf | web-app/components/learn/FlashcardClient.tsx:42-49 | an offset below -50 goes to the next card, above 50 to the previous one, and anything in between does nothing (both directions) |
| Flashcards.DragEndState | web-app/components/learn/FlashcardClient.tsx:42-49 | a swipe moves the cursor but records no answer: the counters are unchanged |
| Flashcards.Tap | web-app/components/learn/FlashcardClient.tsx:68-70 | a tap flips the card if and only if the card is less than 10 px from rest |
| Flashcards.FlippedAfter | web-app/components/learn/FlashcardClient.tsx:409-418 | the card item is keyed by the index and its flip starts `false` (line 37), so a flip survives a step only when the same index stays on the card screen; `FlipSurvivesOnlyStill` says which actions do that |
| Flashcards.FlipSurvivesOnlyStill | web-app/components/learn/FlashcardClient.tsx:36-70 | of the offered actions, exactly a drag that is not a swipe, or a swipe back on the first card, keeps the flip; every answer and every other swipe mounts a new card face up or shows the completion screen |
| Flashcards.RestartState | web-app/components/learn/FlashcardClient.tsx:208-214 | restart returns to the first render's session; `CountersCountAnswers` shows it is what zeroes the counters |
| Flashcards.Offered | web-app/components/learn/FlashcardClient.tsx:229-348 | the completion screen offers only restart; the card screen, shown while the cursor is on a card, offers answers and swipes but not restart; `OfferedRunKeepsShown` is proved along these actions |
| Flashcards.AdvanceFromInnerCard | web-app/components/learn/FlashcardClient.tsx:195-197 | before the last card, advancing moves the cursor forward by one, sets the direction to forward, and leaves the completed and graduated flags unchanged |
| Flashcards.AdvanceFromLastCard | web-app/components/learn/FlashcardClient.tsx:198-203 | on the last card, advancing keeps the cursor and completes the page; a session not yet graduated graduates exactly when the current page is the last page |
| Flashcards.BackTransitions | web-app/components/learn/FlashcardClient.tsx:222-227 | going back steps the cursor back by one, with the direction backward, when it is past the first card; otherwise it changes nothing |
| Flashcards.StepKeepsValid | web-app/components/learn/FlashcardClient.tsx:177-227 | every handler preserves the session invariant: the cursor is on a card (or 0), the direction is -1, 0 or 1, and graduation implies completion of the last page |
| Flashcards.RunKeepsValid | web-app/components/learn/FlashcardClient.tsx:163-227 | after any sequence of answers, swipes and restarts, the invariant still holds; on a non-empty page the cursor stays within 0 .. length-1 |
| Flashcards.OfferedStepKeepsShown | web-app/components/learn/FlashcardClient.tsx:229-348 | an action the screen offers (restart on the completion screen; answers and swipes on the card screen) keeps the cursor on the last card when completed, and graduation exactly on the last page |
| Flashcards.OfferedRunKeepsShown | web-app/components/learn/FlashcardClient.tsx:163-227 | from the first render, along any sequence of offered actions, a completed page sits on its last card and is graduated exactly when it is the level's last page |
| Flashcards.CountersCountAnswers | web-app/components/learn/FlashcardClient.tsx:177-214 | each counter equals the number of answers of its status since the last restart; swipes count nothing |
| Flashcards.CompletionLinks | web-app/components/learn/FlashcardClient.tsx:304-319 | on a completed page, the next-page button is shown exactly before the last page and the finish-course button exactly on it |
| Flashcards.FlashcardClient.constructor | web-app/components/learn/FlashcardClient.tsx:163-167 | the first render: index 0, zero counters, not completed, direction 0, not graduated |
| Flashcards.FlashcardClient.GoToNextCard | web-app/components/learn/FlashcardClient.tsx:194-204 | updates the fields exactly as `NextCardState` and keeps the invariant |
| Flashcards.FlashcardClient.HandleNext | web-app/components/learn/FlashcardClient.tsx:177-192 | updates the fields as `AnswerState`, returns the status write for the card on screen, and raises the answer count by one |
| Flashcards.FlashcardClient.GoToPrevCard | web-app/components/learn/FlashcardClient.tsx:222-227 | updates the fields exactly as `PrevCardState` and keeps the invariant |
| Flashcards.FlashcardClient.HandleRestart | web-app/components/learn/FlashcardClient.tsx:208-214 | from any state, returns to the initial session with no answers counted |
| Flashcards.FlashcardClient.HandleDragEnd | web-app/components/learn/FlashcardClient.tsx:42-49 | updates the fields exactly as `DragEndState`, with the answer count unchanged |
| Flashcards.FlashcardClient.HandlePageChange | web-app/components/learn/FlashcardClient.tsx:216-220 | the pushed query has exactly one `page` parameter, with the given value, and every other parameter is unchanged |
| Flashcards.FlashcardClient.PlayAudio | web-app/components/learn/FlashcardClient.tsx:328-339 | fails exactly for a null or empty link; otherwise it is the same source as the vocabulary card's |
| AudioSource.ResolveAudioSource | web-app/components/learn/VocabCard.tsx:13-23 | fails exactly for a null or empty link; an `http`-prefixed link becomes the proxy route with the encoded link; any other link is used unchanged |
| AudioSource.ProxiedSourceCarriesUrl | web-app/components/learn/VocabCard.tsx:19-23 | a proxied source starts with the proxy route, and its query value holds no delimiter and decodes back to the original link |
| AudioSource.UpperCaseSchemeIsNotProxied | web-app/components/learn/VocabCard.tsx:20 | the prefix test is case-sensitive: `HTTP://...` and relative links are used as is |
| UriEncoding.Utf8Encode | web-app/components/learn/VocabCard.tsx:22 | a character becomes 1 to 4 UTF-8 bytes: the lead byte announces the length, the rest are continuation bytes, the bytes decode to the code point, and the length is the shortest possible |
| UriEncoding.PercentEncodeAt | web-app/components/learn/VocabCard.tsx:22 | each byte becomes `%` followed by its two upper-case hex digits |
| UriEncoding.EncodeUriComponent | web-app/components/learn/VocabCard.tsx:22 | the output consists only of unreserved characters and well-formed `%XX` escapes |
| UriEncoding.DecodeEncode | web-app/components/learn/VocabCard.tsx:22 | decoding the encoding of any string gives that string back |
| UriEncoding.EncodedHasNoDelimiters | web-app/components/learn/VocabCard.tsx:22 | the encoding contains none of `& = ? # +` or space, so it stays one query value |
| JsNumbers.NumberToString | web-app/components/learn/Pagination.tsx:16-20 | `toString()` of an integer is non-empty, starts with `-` exactly for a negative number, and is otherwise decimal digits with no leading zero |
| JsNumbers.ParseInt | web-app/components/learn/Pagination.tsx:35 | `parseInt` is a number exactly when a digit of the scanned radix follows the white space, sign and `0x` prefix; its sign is the scanned sign (pinned down by the lemmas below) |
| JsNumbers.NatToDecimal | web-app/components/learn/Pagination.tsx:16-20 | the decimal text of a number is non-empty, all digits, and without a leading zero |
| JsNumbers.NatToDecimalValue | web-app/components/learn/Pagination.tsx:16-20 | the decimal digits read back as the number |
| JsNumbers.DigitRunLength | web-app/components/learn/Pagination.tsx:35 | `parseInt` reads the longest prefix of digits valid in the radix |
| JsNumbers.DigitRunOfConcat | web-app/components/learn/Pagination.tsx:35 | a run of digits followed by text that does not start with a digit is read exactly to its end |
| JsNumbers.ParseIntOfNumberToString | web-app/components/learn/Pagination.tsx:35-39 | `parseInt` of an integer's `toString()` gives that integer back |
| JsNumbers.ParseIntReadsDigitPrefix | web-app/components/learn/Pagination.tsx:35 | digits (not starting with 0) followed by text that does not start with a digit read as the digits' value: trailing text is ignored |
| JsNumbers.ParseIntSkipsWhiteSpace | web-app/components/learn/Pagination.tsx:35 | any leading white space leaves the result unchanged |
| JsNumbers.ParseIntReadsHex | web-app/components/learn/Pagination.tsx:35 | `0x` followed by hex digits, then text not starting with one, reads as those digits in radix 16 |
| JsNumbers.ParseIntRejectsNonNumeric | web-app/components/learn/Pagination.tsx:36 | empty text, and text starting with anything other than white space, a sign or a digit, is NaN |
| Pagination.PageUrl | web-app/components/learn/Pagination.tsx:25 | the URL `goToPage` pushes, `/learn?level={level}&page={page}`, with the page printed by `toString`; `CommitOfResetText` and `GoToPage` state what leads there |
| Pagination.GoToPage | web-app/components/learn/Pagination.tsx:23-27 | navigates if and only if the page is between 1 and the total, to `/learn?level=..&page=..` |
| Pagination.CommitInput | web-app/components/learn/Pagination.tsx:33-51 | committing navigates exactly when `parseInt` of the text is a page in range; otherwise the box is reset to the current page's text |
| Pagination.CommitOfResetText | web-app/components/learn/Pagination.tsx:39-49 | committing the reset text again goes to the current page when it is in range, and otherwise resets to the same text |
| Pagination.CommitExamples | web-app/components/learn/Pagination.tsx:35-40 | "3abc" commits page 3; "abc", "" and an out-of-range "9" reset the box |
| Pagination.EnabledButtonNavigates | web-app/components/learn/Pagination.tsx:56-110 | on a page in range, each enabled button leads to another page in range; first and last are disabled exactly on the first and last page |
| Pagination.IsDisabled | web-app/components/learn/Pagination.tsx:56-110 | first and previous are disabled at page 1 or below, next and last at the last page or beyond; `EnabledButtonNavigates` proves an enabled button always navigates |
| Pagination.Target | web-app/components/learn/Pagination.tsx:56-110 | the page each button asks for (1, current - 1, current + 1, total); `EnabledButtonNavigates` proves it differs from the current page and is in range when the button is enabled |
| Pagination.PageInput.constructor | web-app/components/learn/Pagination.tsx:16 | the box starts with the current page's text |
| Pagination.PageInput.Rerender | web-app/components/learn/Pagination.tsx:19-21 | the box is resynced to the page's text only when the current page changed |
| Pagination.PageInput.InputChange | web-app/components/learn/Pagination.tsx:29-31 | typing replaces the box's text |
| Pagination.PageInput.Commit | web-app/components/learn/Pagination.tsx:35-50 | navigates and leaves the box, or resets the box, as `CommitInput` says |
| Pagination.PageInput.KeyDown | web-app/components/learn/Pagination.tsx:33-42 | only Enter commits; any other key changes nothing |
| Pagination.PageInput.Blur | web-app/components/learn/Pagination.tsx:44-51 | leaving the box commits it |
| UserStats.GetUserStats | web-app/app/page.tsx:9-28 | six buckets for levels 1..6 in order, each with total 100 x level, mastered the rows with mastery >= 4 and learning the rows with 0 < mastery < 4 |
| UserStats.Count | web-app/app/page.tsx:17-23 | the length of a level's filtered rows: at most the number of rows, and 0 exactly when no row at that level passes the filter |
| UserStats.CountPartition | web-app/app/page.tsx:17-23 | the rows of a level split into mastered, learning, and mastery <= 0 |
| UserStats.BucketSums | web-app/app/page.tsx:18-24 | new + learning + mastered equals total minus the rows of that level with mastery <= 0 |
| UserStats.RowOutsideLevelsIgnored | web-app/app/page.tsx:17 | a row whose level is not 1..6, or is null, changes no bucket |
| UserStats.NullProgressIsEmpty | web-app/app/page.tsx:17 | a null query result gives the same stats as no rows |
| UserStats.FallbackStats | web-app/app/page.tsx:53-61 | the fallback has six buckets |
| UserStats.FallbackIsEmptyProgress | web-app/app/page.tsx:53-61 | the fallback equals the stats of a user without progress |
| UserStats.PageStats | web-app/app/page.tsx:50-61 | the page always shows the `getUserStats` result: it is never empty, so the fallback never applies |
| UserStats.DisplayName | web-app/app/page.tsx:64 | a non-empty full name wins; otherwise the email's part before the first "@" (the whole email without one); otherwise undefined |
| LevelSidebar.CurrentLevel | web-app/components/learn/LevelSidebar.tsx:23 | an absent or empty `level` parameter selects "1"; any other value is kept |
| LevelSidebar.IsActive | web-app/components/learn/LevelSidebar.tsx:35 | a link is highlighted when `String(stat.level)` equals the selected level; `HighlightMatchesDetail` proves it agrees with the detail panel |
| LevelSidebar.Progress | web-app/components/learn/LevelSidebar.tsx:34 | 0 when the total is not positive; otherwise mastered x 100 / total, within 0..100 when mastered is within 0..total |
| LevelSidebar.LevelLinks | web-app/components/learn/LevelSidebar.tsx:33-62 | one link per stat, in order, to `/learn?level=..` |
| LevelSidebar.FindStat | web-app/components/learn/LevelSidebar.tsx:70-73 | finds the first stat whose level text is the selected level, or reports that none matches |
| LevelSidebar.HighlightMatchesDetail | web-app/components/learn/LevelSidebar.tsx:35-73 | the first highlighted link is the stat the detail panel shows; no link is highlighted when no stat matches |
| LevelSidebar.DetailItems | web-app/components/learn/LevelSidebar.tsx:75-102 | three rows (new, learning, mastered) with the stat's counts, each linking to the flashcards of that status |
| LevelSidebar.DotClass | web-app/components/learn/LevelSidebar.tsx:106 | the dot's class is the colour class with its first `text` replaced by `bg`; `DotClassOfTextClass` proves `text-...` becomes `bg-...` |
| LevelSidebar.DotClassOfTextClass | web-app/components/learn/LevelSidebar.tsx:106 | a `text-...` colour class becomes the matching `bg-...` class |
| LevelSidebar.DetailPanelOf | web-app/components/learn/LevelSidebar.tsx:70-120 | the loading placeholder appears if and only if no stat matches the selected level |
| LevelSidebar.DetailPanelShowsFirstMatch | web-app/components/learn/LevelSidebar.tsx:70-116 | the panel lists the rows of the first matching stat |
| LevelSidebar.SumMastered | web-app/components/learn/LevelSidebar.tsx:131 | the footer's mastered total, a left-to-right sum over the stats; `SumMasteredAtMostSumTotal` bounds it |
| LevelSidebar.SumTotal | web-app/components/learn/LevelSidebar.tsx:136 | the footer's word total, a left-to-right sum over the stats |
| LevelSidebar.SumMasteredAtMostSumTotal | web-app/components/learn/LevelSidebar.tsx:131-136 | when no level has more mastered words than its total, the footer's mastered sum is at most its total sum |
| Strings.BeforeFirst | web-app/app/page.tsx:64 | `split(sep)[0]` is the longest prefix without the separator, ending at the first separator or at the end |
| Strings.FirstOccurrence | web-app/components/learn/LevelSidebar.tsx:106 | finds the first position where the pattern occurs, or reports that there is none |
| Strings.ReplaceFirst | web-app/components/learn/LevelSidebar.tsx:106 | replaces the first occurrence only, and returns the string unchanged when there is none |
| SearchParams.NamedConcat | web-app/app/auth/callback/route.ts:7-11 | the parameters of a given name in a concatenation are those of each part, in order |
| SearchParams.Get | web-app/app/auth/callback/route.ts:8-11 | `get` is the first value of that name, or null when there is none |
| SearchParams.Delete | web-app/app/auth/callback/route.ts:65-66 | `delete` removes every parameter of that name and no other |
| SearchParams.DeleteConcat | web-app/app/auth/callback/route.ts:65-66 | deleting from a concatenation deletes from each part; with `DeleteSingleton` this fixes the result, so the remaining pairs keep their order |
| SearchParams.FirstNamed | web-app/app/auth/callback/route.ts:43-46 | the position of the first pair of a name, the one `set` overwrites |
| SearchParams.OverwriteFirst | web-app/app/auth/callback/route.ts:43-46 | after overwriting, the new pair is the only one of that name, and every other name keeps its pairs |
| SearchParams.Set | web-app/app/auth/callback/route.ts:43-46 | after `set`, exactly one parameter of that name remains, with the new value, and other names are unchanged; the new pair takes the place of the first old one, the pairs before it are untouched and the later ones of that name are deleted; a new name is appended at the end |
| SearchParams.SetKeepsOtherPairs | web-app/app/auth/callback/route.ts:43-46 | apart from the pairs of the name it sets, `set` leaves the list as it was, in the same order |
| AuthCallback.NextPath | web-app/app/auth/callback/route.ts:11 | `next` defaults to "/" only when absent; an empty value is kept |
| AuthCallback.SelectCall | web-app/app/auth/callback/route.ts:22-52 | a non-empty `code` means a PKCE exchange whatever else is present; otherwise non-empty `token_hash` and `type` mean an OTP verification; otherwise no call is made |
| AuthCallback.PkceSuccessRedirect | web-app/app/auth/callback/route.ts:28-38 | goes to `next` with `code` removed, and the login message set unless `next` is `/reset-password`; other parameters are kept |
| AuthCallback.OtpSuccessRedirect | web-app/app/auth/callback/route.ts:61-77 | goes to `next` with `token_hash` and `type` removed, and the verified message set unless `next` is `/reset-password`; other parameters are kept |
| AuthCallback.ErrorRedirect | web-app/app/auth/callback/route.ts:92-98 | goes to `/login` with exactly one `error` parameter holding the message; everything else is kept |
| AuthCallback.Callback | web-app/app/auth/callback/route.ts:6-99 | makes the single auth call that `SelectCall` names; on success it redirects as the matching success branch; on a provider error it goes to the login page with the branch's prefix and the provider's message; with no call, it reports the invalid-link error |
| AuthCallback.IncompleteParametersExamples | web-app/app/auth/callback/route.ts:22-52 | `token_hash` without `type` is an invalid link, an empty `code` falls through to OTP, and a `code` wins over OTP parameters |
| AuthCallback.EmptyNextIsKept | web-app/app/auth/callback/route.ts:11 | `?next=` gives the path "", and no `next` gives "/" |

## Left out

- Rendering is left out: layout, animation, icons, the Vietnamese titles of the completion screen, and the toast messages. Only the state and the navigation targets are modelled.
- The flashcard progress bar (`currentIndex / vocabulary.length * 100`) is left out. It is floating point, and NaN for an empty page.
- `updateVocabStatus` is a server call that is not awaited. It is recorded as the `StatusWrite` that `HandleNext` returns; what the server does with it is not part of this model.
- `router.push`, `router.back` and the audio element's playback are left out. Navigation is recorded as the URL or query it would push, and playback as the source string.
- The two auth provider calls (`exchangeCodeForSession`, `verifyOtp`) and the client creation are function parameters. Their effect on cookies and sessions is not modelled.
- The console logging in the auth callback is left out.
- AuthCallback.Callback: the redirect keeps the request URL's origin and rewrites only the path and query. Setting `pathname` does not run the WHATWG URL path normalisation (percent-encoding, dot segments); the path is recorded as the string assigned.
- Flashcards.FlashcardClient.HandlePageChange: the query is returned as its parameter list. The `application/x-www-form-urlencoded` serialisation done by `params.toString()` is not modelled.
- LevelSidebar.Progress: computed on exact reals; the double rounding of `(mastered / total) * 100` in JavaScript is not modelled, so `r * total == mastered * 100` holds for the model, not for every JavaScript value.
- JsNumbers.ParseInt: works on unbounded integers. It does not model rounding to a double above 2^53.
- JsNumbers.NumberToString: covers integer values only. It does not model the exponent form at 10^21 and above, or fractional page numbers.
- UriEncoding.EncodeUriComponent: strings are sequences of Unicode scalar values, so the `URIError` that a lone surrogate raises is not modelled.
- React's batching of state updates and stale closures are left out. Each handler runs on the state of the last render, one at a time.
- The card's enter and exit animations are not modelled. The flip is modelled as the item's boolean state (`Tap`, `FlippedAfter`).
- The home page's `currentLevel: "3"` is a constant placeholder, and the profile role lookup is only displayed; neither is modelled beyond that.
- `utils/supabase/admin.ts` and `components/user/UserNav.tsx` are not part of this model. The same goes for the ranking, dashboard, review, games, profile and admin pages: they are not on the learning path modelled here.
