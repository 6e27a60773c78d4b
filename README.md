# Aerospace newsletter: subscriber store and article digest, in Dafny

This project models the two core parts of the aerospace and defense
newsletter.

The first is the subscriber store of `email_manager.py`, the `EmailManager`
object. It keeps an ordered list of subscriber records and a JSON storage
file. `subscribe` normalises an address with `strip().lower()`, validates it
against the address pattern, and asks `is_subscribed` whether it is already
there. If the checks pass, it appends a record and saves. `unsubscribe`
looks a record up by address whenever an address is given, and by token only
when no address is given (email_manager.py:112-116). It marks the first record
found inactive in place, stamps the time and saves. The
queries (`is_subscribed`, `get_active_subscribers`, `get_subscriber_count`,
`get_stats`, `export_subscribers`) read the list and change nothing.

The second is the article pipeline of `fetch_articles.py`.
`fetch_latest_articles` walks the four feeds in order and takes the first
`limit_per_feed` entries of each. It converts each entry to an article,
filling in placeholders for a missing date or summary, and counts it. It then
commits the feed's articles, unless a conversion raised, in which case the
feed is skipped. Three formatters turn the articles into a console listing, an
HTML e-mail body and a plain-text e-mail body. Each one numbers the articles
from 1 and cuts long summaries.

Layout, one module per file:

- `wrappers.dfy` (`Wrappers`): the `Option` type.
- `py_text.dfy` (`PyText`): the Python string built-ins the code relies on:
  `str.strip()`, `str.lower()` and `str(n)`.
- `subscriber_store.dfy` (`SubscriberStore`): the pure part of the store:
  - the record type and the address pattern;
  - the first-match lookups and the queries;
  - what `subscribe` and `unsubscribe` decide and how each one changes the
    list;
  - the stored document.
- `email_manager.dfy` (`EmailManagement`): the class `EmailManager`. Its fields
  `subscribers` and `storage` are what `subscribe`, `unsubscribe` and
  `_save_subscribers` change in place. Each method is proved to change them
  exactly as the `SubscriberStore` functions say.
- `sequences.dfy` (`Sequences`): joining a sequence of pieces, and sums. These
  are the shapes of `articles.extend(...)` and of text grown with `+=`.
- `fetch_articles.dfy` (`FetchArticles`): the feeds, entries and articles, and
  the two nested loops of `fetch_latest_articles` as methods.
- `digest.dfy` (`Digest`): the three formatters as methods with loops. Each is
  proved to produce a header, one numbered block per article and, for the two
  e-mail bodies, a footer.
  Lemmas locate each article's fields in the output.

The environment is modelled through parameters:

- The storage file is a `StoredFile` value. Whether a write succeeds is a
  boolean `writeOk`.
- Every clock reading is a string parameter. `subscribe` and `unsubscribe`
  read the clock twice: once for the record (`now`) and once, later, for the
  file's `last_updated` (`savedAt`). The two readings are separate parameters.
- The unsubscribe token is an input of length 32.
- `feedparser.parse` is a function parameter from URL to `Feed`.

Re-subscription is modelled as the code does it: `subscribe` asks
`is_subscribed`, which looks only at the first record with the address and
reports its `active` flag
(email_manager.py:69, 141-145). So after an unsubscribe, the same address is
accepted again and appended as a second record. `ResubscribeAppendsDuplicate`
proves that `is_subscribed` still answers false after that, so each further
`subscribe` appends yet another record.

## Model

| member | source | states |
|---|---|---|
| PyText.Strip | email_manager.py:58 | the result has no white space (in Python's `isspace` sense) at either end; it is the slice of the input that starts right after the input's leading white space, and only white space follows it |
| PyText.Normalize | email_manager.py:58 | the normalised address is `strip()` of the input with every character lower-cased, so it is stripped, no longer than the input, and unchanged by `lower()` |
| PyText.Lower | email_manager.py:58 | `lower()` keeps the length and lower-cases each character in place, and lower-casing its result again changes nothing |
| PyText.NormalizeExample | email_manager.py:58 | " Test1@Example.com" is normalised to "test1@example.com" |
| PyText.NormalizeIdempotent | email_manager.py:141-145 | normalising twice equals normalising once, so `is_subscribed` re-normalising an already normalised address changes nothing |
| PyText.StripStripped | email_manager.py:143 | a string without white space at either end is its own `strip()` |
| PyText.LowerLower | email_manager.py:143 | lower-casing a string that `lower()` leaves unchanged gives the same string back |
| PyText.NatToString | fetch_articles.py:63 | `str(i)` for an article number: non-empty, decimal digits only, no leading zero |
| PyText.NatToStringRoundTrip | fetch_articles.py:62-63 | reading the printed number back gives the article number, so distinct numbers print differently |
| SubscriberStore.MatchesShapeCorrect | email_manager.py:51-54 | the executable check (split at the first '@') accepts exactly the strings matching `^[a-zA-Z0-9._%+-]+@[a-zA-Z0-9.-]+\.[a-zA-Z]{2,}$` |
| SubscriberStore.ValidateEmailMeaning | email_manager.py:51-54 | `_validate_email` holds exactly when the string matches the pattern, or is a match followed by one "\n", because `re.match`'s `$` also matches before a final newline |
| SubscriberStore.ValidateStripped | email_manager.py:51-54 | on a string with no white space at either end, validation is exactly the pattern |
| SubscriberStore.ValidateNormalized | email_manager.py:58-61 | on a normalised address the trailing-newline case cannot arise, so validation is exactly the pattern |
| SubscriberStore.IndexOf | email_manager.py:53-54 | the position of the first occurrence of a character, or none when it does not occur |
| SubscriberStore.FindByEmail | email_manager.py:114 | `next(...)` over the records: the index of the first record with the address, or none when no record has it |
| SubscriberStore.FindByToken | email_manager.py:116 | the index of the first record with exactly that token, or none when no record has it |
| SubscriberStore.IsSubscribed | email_manager.py:141-145 | true exactly when the first record with the normalised address exists and is active; false when no record has it |
| SubscriberStore.ActiveSubscribers | email_manager.py:147-149 | the result is an order-preserving subsequence of the records, holds only active records, and holds every active record |
| SubscriberStore.ActiveSubscribersCounts | email_manager.py:149 | each record occurs in the active list exactly as often as in the store when it is active, and not at all otherwise |
| SubscriberStore.InactiveSubscribers | email_manager.py:172-174 | the records left out of `get_active_subscribers`: an order-preserving subsequence of the records that holds only inactive records and every inactive record |
| SubscriberStore.InactiveSubscribersCounts | email_manager.py:172-174 | each record occurs in the inactive list exactly as often as in the store when it is inactive, and not at all otherwise; the active and inactive lists together are a permutation of the records |
| SubscriberStore.ActiveInactivePartition | email_manager.py:172-174 | every record is counted exactly once: active count plus inactive count equals the number of records |
| SubscriberStore.ActiveOfConcat | email_manager.py:147-149 | the active filter distributes over concatenation, so appending records adds their active ones at the end |
| SubscriberStore.SubscriberCount | email_manager.py:155-157 | the active count is at most the number of records and equals it minus the inactive count |
| SubscriberStore.GetStats | email_manager.py:170-181 | the total is the number of records, active plus inactive is the total, and each part is the size of its filter |
| SubscriberStore.ExportSubscribers | email_manager.py:183-188 | with inactive records included, every record in order; otherwise exactly the active records, in order, as many as `get_subscriber_count` |
| SubscriberStore.SubsequenceOfSelf | email_manager.py:185-186 | the full list is trivially an order-preserving subsequence of itself |
| SubscriberStore.StoredName | email_manager.py:79 | an absent or empty name is stored as none; any other name is stored stripped, so a blank name becomes the empty string |
| SubscriberStore.DecideSubscribe | email_manager.py:58-83 | `subscribe` refuses the format exactly when the normalised address fails `_validate_email`, and accepts exactly when it passes and `is_subscribed(email)` is false; the record it builds is active, never unsubscribed, and carries the normalised address |
| SubscriberStore.ApplySubscribe | email_manager.py:85 | the list grows by one record exactly when the subscribe was accepted; every earlier record stays in place, and the new one is last |
| SubscriberStore.SubscribeRejectsMalformed | email_manager.py:58-66 | an address whose normalisation does not match the pattern is rejected as an invalid format, and the list is unchanged |
| SubscriberStore.SubscribeDuplicateCheck | email_manager.py:69-74 | a well-formed address is refused as a duplicate exactly when the first record with it is active, and then the list is unchanged |
| SubscriberStore.FirstRecordDecides | email_manager.py:141-145 | `is_subscribed` is the `active` flag of the first record with the normalised address |
| SubscriberStore.SubscribeAppendsOne | email_manager.py:77-85 | an accepted subscribe appends exactly one record at the end and keeps every earlier record. The new record is active, has never been unsubscribed, and carries the normalised address (which matches the pattern), the stored name, the time and a 32-character token. The active count grows by one |
| SubscriberStore.SubscribeThenSubscribed | email_manager.py:58-85 | a new valid address is accepted; afterwards it counts as subscribed under every spelling that normalises the same way, and subscribing it again is refused |
| SubscriberStore.ResubscribeAppendsDuplicate | email_manager.py:69-85 | when the first record with the address is inactive, subscribe is accepted and appends a second record with the same address; `is_subscribed` still answers false afterwards, and the next subscribe is accepted again |
| SubscriberStore.DecideUnsubscribe | email_manager.py:104-122 | the identifier is missing exactly when neither an e-mail nor a token is given (absent or empty). With an e-mail, a record is found exactly when one has the normalised address, and it is the first such. Without an e-mail but with a token, a record is found exactly when one has that token, and it is the first such. A found index is a valid position in the list |
| SubscriberStore.Deactivate | email_manager.py:125-126 | the record becomes inactive and stamped with the time; its address, name, subscription time and token are kept |
| SubscriberStore.ApplyUnsubscribe | email_manager.py:124-126 | the list keeps its length; the record found is deactivated in place and every other record is unchanged; nothing changes when none was found |
| SubscriberStore.UnsubscribeIdentifiers | email_manager.py:104-122 | with neither an e-mail nor a token (absent or empty) nothing is looked up and nothing changes; with an e-mail the token plays no part; when nothing is found nothing changes |
| SubscriberStore.UnsubscribeDeactivatesFirstMatch | email_manager.py:111-126 | unsubscribe updates the first record matching the address (or, without one, the token), and only that record. It becomes inactive and stamped with the time, and keeps its address, name, subscription time and token. The list length and every other record are unchanged |
| SubscriberStore.UnsubscribeEndsSubscription | email_manager.py:113-126 | after unsubscribing by e-mail, `is_subscribed` answers false for that address, while the record stays in the list |
| SubscriberStore.UnsubscribeCount | email_manager.py:155-157 | the active count drops by one when the record found was active and stays the same when it was already inactive; the total is unchanged |
| SubscriberStore.CountAfterUpdate | email_manager.py:125 | replacing one record changes the active count by exactly the change in that record's flag |
| SubscriberStore.UnsubscribeTwice | email_manager.py:111-126 | unsubscribing the same record again finds the same record and ends in the state of a single unsubscribe at the later time: only the timestamp changes |
| SubscriberStore.FirstWithEmailUnique | email_manager.py:114 | the first record with an address is unique |
| SubscriberStore.FirstWithTokenUnique | email_manager.py:116 | the first record with a token is unique |
| SubscriberStore.UnsubscribeByTokenOrEmail | email_manager.py:112-116 | for the first record with an address, whose token no earlier record has, unsubscribing by the token and by the address target the same record |
| SubscriberStore.LoadSubscribers | email_manager.py:24-34 | the stored list when the file parses and has a "subscribers" key; otherwise an empty store |
| SubscriberStore.SavedFile | email_manager.py:36-49 | the saved document holds the list, its length as the count and the time, and loading it gives the same records back |
| EmailManagement.EmailManager.constructor | email_manager.py:20-22 | the store starts with the records loaded from the storage file |
| EmailManagement.EmailManager.SaveSubscribers | email_manager.py:36-49 | reports whether the write succeeded; the storage file becomes the saved document (the list, its count and the time of the save) exactly then, and is otherwise unchanged |
| EmailManagement.EmailManager.Subscribe | email_manager.py:56-100 | the list becomes the decided list (one record appended exactly when the checks pass, even if the save then fails). The file is saved, stamped with the later clock reading, exactly when a record was appended and the write succeeds. The response carries the normalised address and the message for each outcome, and the record only on success |
| EmailManagement.EmailManager.Unsubscribe | email_manager.py:102-139 | the list becomes the decided list (the found record deactivated in place, even if the save then fails). The file is saved, stamped with the later clock reading, exactly when a record was found and the write succeeds. The response carries the message for each outcome, and the record's address only on success |
| FetchArticles.ToArticle | fetch_articles.py:34-39 | an entry converts exactly when it has a title and a link; both are copied, and a missing date or summary becomes "No date available" or "No summary available" |
| FetchArticles.Head | fetch_articles.py:33 | `entries[:limit]` is a prefix of the entries; for a non-negative limit it has `min(limit, n)` entries and is all of them when there are at most `limit`; a negative limit drops `-limit` entries from the end, or all of them |
| FetchArticles.Leading | fetch_articles.py:33-41 | the articles of the entries before the first one that raises, in order, one per entry |
| FetchArticles.LeadingUnique | fetch_articles.py:33-41 | any list that converts a prefix of the entries, and stops at an entry that raises or at the end, is that leading list |
| FetchArticles.ConvertEntries | fetch_articles.py:33-41 | the inner loop collects exactly the leading articles, raises exactly when an entry of the prefix lacks a title or a link, and raises the counter by one per article collected |
| FetchArticles.FeedArticles | fetch_articles.py:29-47 | a feed contributes exactly when it parses and every entry of its prefix converts, and then one article per entry, in order |
| FetchArticles.FeedCount | fetch_articles.py:33-41 | the counter grows by nothing for a feed that does not parse; otherwise by the number of entries of the prefix that convert before the first one that raises (every entry counted converts, and the next one, if any, raises), which is the number of articles when the feed contributes |
| FetchArticles.GatheredSnoc | fetch_articles.py:41-43 | processing one more feed extends the articles by that feed's contribution and the counter by its increments |
| FetchArticles.ProcessFeed | fetch_articles.py:29-47 | one pass of the feed loop appends exactly that feed's contribution to the articles and adds its conversions to the counter |
| FetchArticles.GatherFeeds | fetch_articles.py:27-47 | the loop over the feeds returns their contributions joined in order, and the counter is the sum of their increments |
| FetchArticles.FetchLatestArticles | fetch_articles.py:20-50 | the articles returned are the feeds' contributions joined in `FEEDS` order, and the counter is the sum of the feeds' increments |
| FetchArticles.GatheredAppend | fetch_articles.py:27-47 | feeds are processed independently and in order: a feed that raises does not stop the ones after it |
| FetchArticles.FeedBound | fetch_articles.py:33 | one feed contributes at most `limit_per_feed` articles |
| FetchArticles.GatheredBound | fetch_articles.py:27-43 | the articles returned number at most `limit_per_feed` per feed |
| FetchArticles.FetchBound | fetch_articles.py:13-20 | with the four feeds, at most `4 * limit_per_feed` articles are returned, so at most 20 with the default limit of 5 |
| FetchArticles.CountedVersusGathered | fetch_articles.py:41-49 | the reported total is never below the number of articles returned, and equals it when every feed contributes |
| FetchArticles.PartialFeedCounted | fetch_articles.py:29-47 | a feed whose prefix converts at first but then raises adds no article yet raises the total, so the reported total exceeds the number returned |
| FetchArticles.FeedPrefix | fetch_articles.py:33-40 | a feed that contributes gives `min(limit, n)` articles, the first entries in order, each converted |
| Digest.Truncated | fetch_articles.py:190 | a summary no longer than the limit is shown whole; a longer one shows its first `limit` characters followed by "..." |
| Digest.Repeat | fetch_articles.py:55 | `c * n` is `n` copies of `c` |
| Digest.OutputBlocksSnoc | fetch_articles.py:62-67 | numbering one more article adds its block, numbered next, at the end |
| Digest.JoinLinesAppend | fetch_articles.py:69 | `"\n".join` of two non-empty runs of lines is the join of each, with one newline between them |
| Digest.FormatArticlesForOutput | fetch_articles.py:52-69 | the listing is the header lines and each article's five lines, numbered from 1 in order, joined with newlines |
| Digest.OutputLayout | fetch_articles.py:54-67 | the listing has six header lines (including `Total articles: n` for n articles), then five lines per article: article k is at line 6 + 5k, with its number and title, link, date, and summary cut at 200 |
| Digest.FormatArticlesForEmail | fetch_articles.py:161-205 | the HTML body is the header with the date, one block per article numbered from 1 in order, and the footer |
| Digest.HtmlBlockAt | fetch_articles.py:185-195 | article k's block appears in the HTML body right after the header and the blocks of the k articles before it |
| Digest.HtmlBlockFields | fetch_articles.py:186-195 | each HTML block shows the article number, title, date, summary cut at 300 and link, in that order |
| Digest.FormatArticlesForText | fetch_articles.py:207-229 | the plain-text body is the header with the date and a rule of 50 '=', one block per article numbered from 1 in order, and the footer |
| Digest.TextBlockAt | fetch_articles.py:216-223 | article k's block appears in the plain-text body right after the header and the blocks of the k articles before it |
| Digest.TextBlockFields | fetch_articles.py:217-223 | each plain-text block shows the article number, title, date, link and summary cut at 300, in that order |

## Left out

- JSON file I/O (`open`, `json.load`, `json.dump`): the file is a `StoredFile` value, and the outcome of a write is the boolean `writeOk`. A write that fails halfway and leaves a corrupt file is not modelled.
- Errors that `_load_subscribers` does not catch, such as a permission error or a decoding error, would propagate out of the constructor. They are not modelled: `Malformed` stands only for JSON that does not parse.
- Records with missing keys (`s.get('active', False)`, `s['email']` on a hand-edited file): every record is assumed to have all its fields.
- Token generation (`secrets.token_hex` and SHA-256): the token is an input of length 32. Its uniqueness is not claimed, because the code does not check it.
- `datetime.now()` and `strftime`: every time and date is an already formatted string parameter.
- Aliasing: `get_all_subscribers` and `export_subscribers(True)` return the live list in Python. Here they return a value, so a caller's later mutation of that list is not modelled.
- `str.lower()` is modelled for A-Z and the Kelvin sign only. Other characters whose lower case differs (accented capitals, Greek, Cyrillic) are left unchanged, so addresses with them may normalise differently. The validation pattern rejects them in any case.
- `subscribe` with a `None` e-mail raises in Python; here the address is always a string.
- `feedparser.parse` and the network: parsing is a function parameter, and any exception it raises is the `ParseError` feed.
- Entry attributes other than `title`, `link`, `published` and `summary` are not modelled.
- `send_email_with_articles` (SMTP and its error handling) and the script's `__main__` block: mail transport and environment variables are outside this model.
- newsletter.py, signup_server.py, manage_subscribers.py and the test scripts are not part of this model.
- The CSS rules inside the HTML `<style>` element are left out of the HTML template. The element itself and all other template text are kept.
- `print` and logging output are not modelled.
- Digest.FormatArticlesForOutput: the text is tied to the lines through `JoinLines`. Splitting the text back into lines is not stated: a title or summary that contains a newline makes that split differ from the lines.
