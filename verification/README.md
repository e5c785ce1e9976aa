# Spotibot blackjack table, persistence text and path helpers, in Dafny

Spotibot is a Discord music bot that also runs a shared blackjack table in
each channel. This project models the table's rules and bookkeeping:

- **Cards.** The value of a hand: faces count 10, aces 11, and 10 comes off
  per ace while the total is over 21. The rank of a card string, and the
  rank comparison that splitting uses.
- **The table.** A `Table` class whose fields are the game's static state:
  - the seated list and the waiting set;
  - balances, wins, losses, pending bets and the round's net per player;
  - ledgers that keep the newest 100 entries;
  - the per-player hand lists, the dealer's hand, the phase, and whose turn
    it is;
  - the round history, newest first and capped at 20, with its page.

  Its methods are join, leave, placing and clearing bets, buying in, adding
  funds and queuing an action. They also cover the steps of a round: seating
  the waiting players, the all-bet test and the deal with its stakes. Then
  each player's turn with HIT, STAND, DOUBLE and SPLIT, the dealer drawing to
  17, the settlement, the history pages and the idle close.
- **Persistence.** The text format of the saved balances: `escape`,
  `mapToJson` and the hand-rolled `readIntMap` parser, as string functions.
- **Paths and downloads.** `ConfigUtils.ensureTrailingSlash` and the paths
  built from it. From `DownloadQueueHandler`: `sanitizeFileName`, the choice
  between a YouTube link and a search query, the output path, and the guard
  against an empty title.

Cards come from a shoe read in order: the table holds a function
`draw: nat -> Card` and a counter `drawn`, so the n-th card dealt is
`draw(n)`. The actions a player sends during their turn are an input
sequence of `Option<Action>`. `None` stands for the 45-second timeout, which
the game treats as STAND.

Modules, in dependency order:

| module | file | what it holds |
|---|---|---|
| `Wrappers` | wrappers.dfy | `Option`, `Result` |
| `Text` | text.dfy | Java's `indexOf`, `replace`, `trim`, `split`, `Integer.parseInt` and `int`-to-text on `string` |
| `Cards` | cards.dfy | ranks, suits, `rankOf`, `sameRank`, `handValue` |
| `Hands` | hands.dfy | `HandState`, `canDouble`/`canSplit`, hit/double/split, the natural payout, settlement arithmetic |
| `Bounded` | bounded.dfy | newest-first capped logs, history paging |
| `Config` | config.dfy | `ensureTrailingSlash`, the derived paths |
| `Download` | download.dfy | `sanitizeFileName`, the query and path of a download |
| `Persist` | persist.dfy | `escape`, `mapToJson`, `readIntMap`, and the read-back of saved balances |
| `Accounts` | accounts.dfy | `getOrDefault`, `merge`, `List.remove`, who stays for the deal, per-player sums |
| `Turns` | turns.dfy | one player's turn loop and one player's settlement, on values |
| `Table` | table.dfy | the `Table` class and the lemmas about the deal and the settlement |

## Model

| member | source | states |
|---|---|---|
| Text.IndexOf | src/main/java/com/example/bot/BlackjackGame.java:1058-1061 | A found index is at or after the start position, and the pattern occurs there. |
| Text.IndexOfIs | src/main/java/com/example/bot/BlackjackGame.java:1058-1061 | The first occurrence at or after the start position is the index returned. |
| Text.IndexOfFirst | src/main/java/com/example/bot/BlackjackGame.java:1058-1061 | Nothing occurs between the start position and the index returned; with no result, nothing occurs from the start on. |
| Text.ReplaceChar | src/main/java/com/example/bot/BlackjackGame.java:1092 | `replace` leaves a string without the character unchanged, and no copy of the character survives when the replacement lacks it. |
| Text.TrimVisible | src/main/java/com/example/bot/BlackjackGame.java:1064 | `trim` returns a string unchanged when it starts and ends with a visible character. |
| Text.SplitOn | src/main/java/com/example/bot/BlackjackGame.java:1067 | Splitting yields at least one part. |
| Text.SplitOnAbsent | src/main/java/com/example/bot/BlackjackGame.java:1069 | A string without the delimiter splits into itself alone. |
| Text.SplitOnFirst | src/main/java/com/example/bot/BlackjackGame.java:1067 | A delimiter-free head, the delimiter and a tail split into the head followed by the tail's parts. |
| Text.SplitJoin | src/main/java/com/example/bot/BlackjackGame.java:1067 | Splitting parts joined by a delimiter none of them contains gives the parts back. |
| Text.JoinSnoc | src/main/java/com/example/bot/BlackjackGame.java:1082-1086 | Appending a part appends the delimiter and that part to the joined text. |
| Text.DigitChar | src/main/java/com/example/bot/BlackjackGame.java:1085 | Each value below 10 has a decimal digit character. |
| Text.NatToString | src/main/java/com/example/bot/BlackjackGame.java:1085 | A natural number's text is non-empty and all digits. |
| Text.ParseInt | src/main/java/com/example/bot/BlackjackGame.java:1073 | `Integer.parseInt` only succeeds with a value in the 32-bit range. |
| Text.DigitsOfNat | src/main/java/com/example/bot/BlackjackGame.java:1073 | Reading a natural number's digits back gives the number. |
| Text.ParseIntToString | src/main/java/com/example/bot/BlackjackGame.java:1073-1085 | Every 32-bit value printed by `append(int)` parses back to itself. |
| Text.IntToStringShape | src/main/java/com/example/bot/BlackjackGame.java:1085 | A printed integer is non-empty, starts and ends with a visible character, and holds only digits and '-'. |
| Cards.RankOf | src/main/java/com/example/bot/BlackjackGame.java:935-937 | `rankOf` drops exactly the last character, the suit. |
| Cards.RankOfCardText | src/main/java/com/example/bot/BlackjackGame.java:925-937 | The rank of a dealt card's text is its rank's text. |
| Cards.RankTextInjective | src/main/java/com/example/bot/BlackjackGame.java:926 | Different ranks have different texts. |
| Cards.SameRankIff | src/main/java/com/example/bot/BlackjackGame.java:931-933 | `sameRank` holds exactly when the ranks are equal; suits are ignored. |
| Cards.HardTotalAtLeastCards | src/main/java/com/example/bot/BlackjackGame.java:943-950 | With every ace counted as 1, a hand is worth at least its number of cards. |
| Cards.DowngradeShape | src/main/java/com/example/bot/BlackjackGame.java:952-955 | The downgrade loop takes 10 off k times for some k up to the ace count, and stops at 21 or below unless every ace is used up. |
| Cards.HandValueShape | src/main/java/com/example/bot/BlackjackGame.java:939-957 | `handValue` counts k aces low, lies between the all-low and all-high totals, and is over 21 only when every ace counts as 1. |
| Cards.ComputeHandValue | src/main/java/com/example/bot/BlackjackGame.java:939-957 | The two loops of `handValue` compute the hand value. |
| Cards.AddCardRaisesHardTotal | src/main/java/com/example/bot/BlackjackGame.java:383-387 | One more card raises the all-aces-low total by at least 1, which bounds the dealer's draws. |
| Hands.CanSplitIff | src/main/java/com/example/bot/BlackjackGame.java:802-821 | A split is allowed exactly when a double is and the two cards have the same rank, whatever their suits. |
| Hands.NaturalPayout | src/main/java/com/example/bot/BlackjackGame.java:426 | The natural payout is 2.5 times the bet rounded half up, as `Math.round` does. |
| Hands.NaturalNet | src/main/java/com/example/bot/BlackjackGame.java:430 | The natural's round net is 1.5 times the bet rounded half up. |
| Hands.NaturalNetIsPayoutLessBet | src/main/java/com/example/bot/BlackjackGame.java:426-430 | The round net of a natural is its payout less the stake. |
| Hands.HitKeepsStakes | src/main/java/com/example/bot/BlackjackGame.java:451-457 | A HIT on hand i leaves the stakes of the hand list unchanged and raises the hand's hard total by the card's pip value (an ace by 1). |
| Hands.DoubleAddsStake | src/main/java/com/example/bot/BlackjackGame.java:463-474 | A DOUBLE on hand i adds exactly its stake once more to the stakes of the hand list, raises its hard total by the one card and resolves it. |
| Hands.SplitHands | src/main/java/com/example/bot/BlackjackGame.java:475-494 | SPLIT puts the first card and a new card at i and the second card and a new card at i+1, both carrying the bet and unresolved; the other hands are untouched. |
| Hands.TotalBetAppend | src/main/java/com/example/bot/BlackjackGame.java:475-494 | The stakes on two hand lists add up. |
| Hands.TotalBetUpdate | src/main/java/com/example/bot/BlackjackGame.java:463-474 | Replacing one hand changes the total stake by the change in its bet. |
| Hands.TotalBetSplit | src/main/java/com/example/bot/BlackjackGame.java:475-494 | A split adds the split hand's bet once to the total stake. |
| Hands.HandNet | src/main/java/com/example/bot/BlackjackGame.java:519-525 | The per-hand net is the settlement credit less the stake. |
| Hands.OutcomeIff | src/main/java/com/example/bot/BlackjackGame.java:527-546 | A hand wins exactly when it is not bust and the dealer busts or is beaten; it pushes exactly on equal totals of at most 21; it loses by bust exactly when over 21. |
| Hands.SumNetIsCreditLessStakes | src/main/java/com/example/bot/BlackjackGame.java:519-546 | Over a player's hands, the round net is the credits less the stakes. |
| Hands.WinsAndLossesAtMostHands | src/main/java/com/example/bot/BlackjackGame.java:527-546 | Wins plus losses never exceed the number of hands; a push counts as neither. |
| Hands.NaturalSettledAgain | src/main/java/com/example/bot/BlackjackGame.java:506-546 | A natural hand, already paid during the turn, is credited again at settlement: the stake on a dealer 21, twice the stake otherwise. |
| Bounded.NewestFirst | src/main/java/com/example/bot/BlackjackGame.java:1005-1009 | The capped log has the new entry first, then the newest of the old ones, and holds min(old size + 1, cap) entries. |
| Bounded.PushFront | src/main/java/com/example/bot/BlackjackGame.java:1005-1009 | `addFirst` followed by the `removeLast` loop gives the capped log. |
| Bounded.NewestFirstAll | src/main/java/com/example/bot/BlackjackGame.java:1005-1009 | Adding entries one by one keeps the log at the cap: its length is the old length plus the entries, at most the cap. |
| Bounded.NewestFirstAllFront | src/main/java/com/example/bot/BlackjackGame.java:1005-1009 | After adding entries one by one, as many of them as the cap allows stand in front, newest first. |
| Bounded.OlderPage | src/main/java/com/example/bot/BlackjackGame.java:275-283 | The older page is one more, clamped to the last page (exactly min(size - 1, page + 1)), and stays in range. |
| Bounded.NewerPage | src/main/java/com/example/bot/BlackjackGame.java:285-290 | The newer page is one less, clamped at 0 (exactly max(0, page - 1)). |
| Config.EnsureTrailingSlash | src/main/java/com/example/bot/ConfigUtils.java:30-33 | A null or empty path becomes "./config/"; a path ending in '/' or '\\' is kept; any other gets one '/'; the result always ends in a separator. |
| Config.EnsureTrailingSlashIdempotent | src/main/java/com/example/bot/ConfigUtils.java:31-32 | Applying it twice is the same as applying it once. |
| Config.DerivedPaths | src/main/java/com/example/bot/ConfigUtils.java:16-21 | Each derived path is the folder followed by "config.json", "cookies.txt" or "downloads/"; the defaults are /app/config/ and, for an empty CONFIG_DIR, ./config/. |
| Download.SanitizeFileName | src/main/java/com/example/bot/DownloadQueueHandler.java:147-149 | Each character of [A-Za-z0-9_-] stays in place, every other becomes '_', and the length is kept. |
| Download.SanitizeIdempotent | src/main/java/com/example/bot/DownloadQueueHandler.java:148 | Every output character is in [A-Za-z0-9_-], so sanitising twice is sanitising once. |
| Download.SanitizeKeepsCleanNames | src/main/java/com/example/bot/DownloadQueueHandler.java:148 | A name already in [A-Za-z0-9_-] is returned unchanged. |
| Download.DownloadQuery | src/main/java/com/example/bot/DownloadQueueHandler.java:24 | The query is the input itself exactly when it contains "youtube.com" or "youtu.be"; otherwise it is "ytsearch:" followed by the whole input. |
| Download.QueryInputRoundTrip | src/main/java/com/example/bot/DownloadQueueHandler.java:24 | The input can be read back from every query: a link as it is, a search by dropping the "ytsearch:" prefix. |
| Download.OutputFilePath | src/main/java/com/example/bot/DownloadQueueHandler.java:25-26 | The path is the server folder, then the sanitised title, then ".webm". |
| Download.QueueAndPlay | src/main/java/com/example/bot/DownloadQueueHandler.java:16-26 | A null or empty title is refused with "Invalid track title." and nothing is queued; any other gives a job with the query, the output path and the title. |
| Persist.ReplaceCharAppend | src/main/java/com/example/bot/BlackjackGame.java:1092 | `replace` distributes over concatenation. |
| Persist.EscapeIsPerChar | src/main/java/com/example/bot/BlackjackGame.java:1091-1093 | The two chained replaces of `escape` are the same as escaping each character on its own. |
| Persist.UnescapeEscapeEach | src/main/java/com/example/bot/BlackjackGame.java:1091-1093 | Per-character escaping can be undone. |
| Persist.UnescapeEscape | src/main/java/com/example/bot/BlackjackGame.java:1091-1093 | `escape` loses nothing: unescaping its output gives the input back. |
| Persist.EntryTexts | src/main/java/com/example/bot/BlackjackGame.java:1085 | There is one entry text per map entry. |
| Persist.EntryTextsAt | src/main/java/com/example/bot/BlackjackGame.java:1085 | The i-th entry text is the quoted, escaped key, ':' and the value. |
| Persist.MapToJson | src/main/java/com/example/bot/BlackjackGame.java:1078-1089 | The loop builds '{', the entries joined by ',', and '}'. |
| Persist.OccursChar | src/main/java/com/example/bot/BlackjackGame.java:1060-1061 | A one-character pattern occurs exactly where that character is. |
| Persist.ReadIntMap | src/main/java/com/example/bot/BlackjackGame.java:1056-1076 | The parser returns the specified map: empty when the key, '{' or '}' is missing or the body is blank. |
| Persist.ReadBody | src/main/java/com/example/bot/BlackjackGame.java:1064-1075 | The loop over the comma-separated parts puts each well-formed "key:int" pair and skips the rest. |
| Persist.EntryTextShape | src/main/java/com/example/bot/BlackjackGame.java:1085 | A plain key's entry text is "\"key\":value", starts with a quote, ends visibly and holds no ',' or '}'. |
| Persist.PutPartEntry | src/main/java/com/example/bot/BlackjackGame.java:1069-1073 | Parsing one written entry puts exactly that key and value. |
| Persist.PutPartsEntries | src/main/java/com/example/bot/BlackjackGame.java:1068-1074 | Parsing all written entries rebuilds the map, the later entry winning. |
| Persist.JoinShape | src/main/java/com/example/bot/BlackjackGame.java:1082-1086 | A join of non-empty parts starts with the first part's first character and ends with the last part's last. |
| Persist.JoinAvoids | src/main/java/com/example/bot/BlackjackGame.java:1082-1086 | A character in no part, other than the delimiter, is not in the join. |
| Persist.SplitBody | src/main/java/com/example/bot/BlackjackGame.java:1064-1067 | The written body is already trimmed and splits back into its entry texts. |
| Persist.FindOpen | src/main/java/com/example/bot/BlackjackGame.java:1060 | The search for '{' from the key finds the object's opening brace. |
| Persist.FindClose | src/main/java/com/example/bot/BlackjackGame.java:1061-1064 | The search for '}' finds the object's closing brace, and the substring between them is the body. |
| Persist.ReadBack | src/main/java/com/example/bot/BlackjackGame.java:1056-1089 | A map written by `mapToJson` after a key, with no '{' between the key and it, is read back exactly. |
| Persist.LocateBody | src/main/java/com/example/bot/BlackjackGame.java:1058-1064 | In such a document the parser's two searches find the braces and cut out the body. |
| Persist.ReadBackAt | src/main/java/com/example/bot/BlackjackGame.java:1056-1076 | When the searches land on a written body, the parser returns the written map. |
| Persist.BodyMapEntries | src/main/java/com/example/bot/BlackjackGame.java:1064-1075 | A written body holds no '}' and parses back into the written map. |
| Persist.SavedBalancesReadBack | src/main/java/com/example/bot/BlackjackGame.java:1016-1017 | The balances section that `saveState` writes is read back by `readIntMap` with the "balances" key as the same map, whatever follows it. |
| Accounts.Merge | src/main/java/com/example/bot/BlackjackGame.java:135 | `merge` with sum adds the amount to the entry (starting at 0 when absent) and changes no other entry. |
| Accounts.RemoveFirst | src/main/java/com/example/bot/BlackjackGame.java:219 | `List.remove` leaves a list without the element unchanged and otherwise removes exactly one element. |
| Accounts.RemoveFirstIn | src/main/java/com/example/bot/BlackjackGame.java:219 | Removal brings in no one and keeps everyone but the removed user. |
| Accounts.RemoveFirstNoDup | src/main/java/com/example/bot/BlackjackGame.java:219 | On a duplicate-free list the user is gone afterwards and the list stays duplicate-free. |
| Accounts.SplitLast | src/main/java/com/example/bot/BlackjackGame.java:352 | A duplicate-free list is a duplicate-free prefix plus a last element not in it. |
| Accounts.RemoveFirstAppend | src/main/java/com/example/bot/BlackjackGame.java:357 | Removing a user not in a list's head removes it from its tail. |
| Accounts.Affordable | src/main/java/com/example/bot/BlackjackGame.java:352-357 | The players kept for the deal are no more than the seated players. |
| Accounts.AffordableIn | src/main/java/com/example/bot/BlackjackGame.java:352-357 | A player stays for the deal exactly when seated and their balance (100 if unknown) covers their bet (5 if none). |
| Accounts.AffordableAppend | src/main/java/com/example/bot/BlackjackGame.java:352-357 | One more seat adds that player to the kept list exactly when they can cover their bet. |
| Accounts.AffordableLast | src/main/java/com/example/bot/BlackjackGame.java:352-357 | The last seated player stays when they can cover the bet; the others stay as they did before. |
| Accounts.AffordableNoDup | src/main/java/com/example/bot/BlackjackGame.java:352-357 | The kept players are distinct. |
| Accounts.AccumulateSnoc | src/main/java/com/example/bot/BlackjackGame.java:506-550 | Settling one more player adds that player's sum to what was settled before. |
| Accounts.AccumulateAt | src/main/java/com/example/bot/BlackjackGame.java:506-550 | Over a duplicate-free seat list each player holding hands gains the sum over their own hands exactly once; everyone else's entry is unchanged. |
| Turns.Poll | src/main/java/com/example/bot/BlackjackGame.java:828-837 | Without a queue nothing is polled; otherwise the oldest queued action, then the next arrival, is taken and consumed; no other state changes. |
| Turns.Apply | src/main/java/com/example/bot/BlackjackGame.java:447-495 | The switch on the polled action, action by action: HIT adds the next card of the shoe; STAND resolves; an allowed DOUBLE debits the stake, logs DOUBLE_BET newest first, doubles the stake, adds one card and resolves; an allowed SPLIT debits the stake, logs SPLIT_BET and splits over the next two cards; a refused DOUBLE or SPLIT changes nothing. |
| Turns.AppliedKeeps | src/main/java/com/example/bot/BlackjackGame.java:447-495 | Every action leaves the hands before i alone, moves money only between balance and stakes, keeps a non-negative balance and the ledger cap, and deals the shoe and uses the queue only forward. |
| Turns.Step | src/main/java/com/example/bot/BlackjackGame.java:437-496 | A pass that ends play on the hand leaves it resolved; a pass that does not has used up an action, so the loop ends. |
| Turns.StepKeeps | src/main/java/com/example/bot/BlackjackGame.java:437-496 | A pass keeps what every action keeps; with no queue or no action left it only resolves the hand. |
| Turns.HandStep | src/main/java/com/example/bot/BlackjackGame.java:437-496 | One pass on hand i keeps the hands before i and keeps balance plus stakes constant. It resolves the hand when play on it ends and consumes an action unless it ends. A missing queue makes it STAND at once. |
| Turns.Played | src/main/java/com/example/bot/BlackjackGame.java:437-497 | Passes are taken until play on the hand is over: the hand ends resolved and the list only grows. |
| Turns.PlayedKeeps | src/main/java/com/example/bot/BlackjackGame.java:437-497 | Playing a hand out keeps what every pass keeps; with no queue or no action left it only resolves the hand. |
| Turns.PlayHand | src/main/java/com/example/bot/BlackjackGame.java:437-497 | Computes Played: passes on hand i, each applying the polled action as Apply states, until play on it is over. It ends resolved, the earlier hands untouched, balance plus stakes constant, a non-negative balance kept and the ledger capped. |
| Turns.NaturalWalk | src/main/java/com/example/bot/BlackjackGame.java:422-435 | A natural on the sole first hand is paid round(2.5 x bet), resolved and logged, and ends the walk. |
| Turns.PlayedFromShape | src/main/java/com/example/bot/BlackjackGame.java:411-499 | The walk over the hands only grows the list, keeps the hands already visited and ends on a hand of the list. |
| Turns.PlayedFromResolves | src/main/java/com/example/bot/BlackjackGame.java:411-499 | On a running table every hand from the start of the walk on ends resolved. |
| Turns.PlayedFromMoney | src/main/java/com/example/bot/BlackjackGame.java:411-499 | Balance plus stakes gains only a natural's payout over the walk, and a non-negative balance stays so. |
| Turns.PlayedFromProgress | src/main/java/com/example/bot/BlackjackGame.java:411-499 | Over the walk the shoe and the queue only move forward and the ledger keeps its cap. |
| Turns.PlayedFromIdle | src/main/java/com/example/bot/BlackjackGame.java:437-449 | Without a queue, or with no action left, every hand other than a natural keeps its cards and stake and only gets resolved. |
| Turns.PlayedFromFacts | src/main/java/com/example/bot/BlackjackGame.java:411-499 | The walk from the first hand: the facts above together, a natural giving AfterNatural. |
| Turns.VisitHand | src/main/java/com/example/bot/BlackjackGame.java:414-435 | One visit of the hand loop is one step of the walk: a natural is paid, a stopped table ends the walk at that hand, a running one plays it out. |
| Turns.WalkHands | src/main/java/com/example/bot/BlackjackGame.java:411-499 | The loop over the growing hand list computes the walk from the first hand and reports whether it paid a natural. |
| Turns.PlayHands | src/main/java/com/example/bot/BlackjackGame.java:411-499 | Computes the walk from the first hand (PlayedFrom). A natural on the sole hand is paid round(2.5 x bet) and resolved without polling. Otherwise every hand is resolved while the table runs, and balance plus stakes is unchanged apart from the natural's payout. |
| Turns.HandLines | src/main/java/com/example/bot/BlackjackGame.java:548 | There is one log line per hand. |
| Turns.SettleHands | src/main/java/com/example/bot/BlackjackGame.java:511-549 | Settling a player's hands adds the credits to the balance, the wins and losses to the counters, the credits less the stakes to the net and one line per hand to the log, and puts one ledger entry per hand in front, in order, keeping the ledger capped. |
| Turns.SettleEntries | src/main/java/com/example/bot/BlackjackGame.java:519-546 | One ledger entry per hand settled. |
| Turns.SettleEntriesAt | src/main/java/com/example/bot/BlackjackGame.java:519-546 | The entry of each hand: a bust is BUST and a loss LOSS, crediting nothing; a win is WIN with twice the stake and a push PUSH with the stake; each records the balance after it and the hands before it are credited. |
| Turns.SettledTallySums | src/main/java/com/example/bot/BlackjackGame.java:511-549 | Settling hands one by one sums their credits, wins, losses and nets and appends one log line per hand. |
| Turns.SettledTallyEntries | src/main/java/com/example/bot/BlackjackGame.java:511-549 | Settling hands one by one puts their ledger entries in front of the ledger, in order, within the cap. |
| Turns.SettleHand | src/main/java/com/example/bot/BlackjackGame.java:519-548 | One hand settled: the step of the settlement loop. |
| Table.PutIfAbsent | src/main/java/com/example/bot/BlackjackGame.java:190-195 | `putIfAbsent` adds the key with the default only when it is missing and keeps every existing entry. |
| Table.JoinKeeps | src/main/java/com/example/bot/BlackjackGame.java:186-212 | Giving a user their entries, then seating them or letting them wait, keeps the table consistent. |
| Table.LeaveKeeps | src/main/java/com/example/bot/BlackjackGame.java:218-223 | Removing a user and their queue keeps the table consistent and takes them off the seats. |
| Table.AdmitKeeps | src/main/java/com/example/bot/BlackjackGame.java:314-315 | Seating every waiting user once keeps the table consistent with nobody waiting. |
| Table.TurnKeeps | src/main/java/com/example/bot/BlackjackGame.java:411-499 | Writing back a seated player's balance, ledger and queue within their caps keeps the table consistent. |
| Table.PlayerTurns | src/main/java/com/example/bot/BlackjackGame.java:411-499 | A player without hands or not seated is skipped, and a player's turns never add or drop players holding hands. |
| Table.PlayerTurnsKeeps | src/main/java/com/example/bot/BlackjackGame.java:411-499 | A player's turns leave every other player's balance, ledger and hands as they were, and only deal the shoe forward. |
| Table.PlayerTurnsOwn | src/main/java/com/example/bot/BlackjackGame.java:411-499 | Over a player's own turns only their entries change; their hand list grows, ends resolved on a running table, balance plus stakes gains only a natural's payout, a non-negative balance stays so, the ledger keeps its cap and the queue only shrinks. |
| Table.PlayerTurnsMarks | src/main/java/com/example/bot/BlackjackGame.java:417-435 | A natural leaves one resolved hand, counts one win and adds round(1.5 x bet) to the round net; otherwise wins and net are untouched; the turn marker is left on a hand of the player when they had any. |
| Table.AllTurns | src/main/java/com/example/bot/BlackjackGame.java:370-373 | The turn loop never adds or drops players holding hands. |
| Table.AllTurnsKeeps | src/main/java/com/example/bot/BlackjackGame.java:370-373 | The turn loop leaves the players it does not list as they were and deals the shoe only forward. |
| Table.AllTurnsResolved | src/main/java/com/example/bot/BlackjackGame.java:370-373 | On a running table the turn loop over distinct seated players leaves each of their hands resolved. |
| Table.NarrowKeeps | src/main/java/com/example/bot/BlackjackGame.java:352-365 | Keeping part of the seats and capped ledgers over the same users keeps the table consistent. |
| Table.ResolvedForStep | src/main/java/com/example/bot/BlackjackGame.java:370-373 | One more player's turn, touching only their hands and resolving them, extends "all resolved" to that player. |
| Table.StakeAllSnoc | src/main/java/com/example/bot/BlackjackGame.java:352-365 | The deal over one more player is one more step of the loop. |
| Table.StakeAllAppend | src/main/java/com/example/bot/BlackjackGame.java:352-365 | The deal over a list plus a player is the deal over the list, then that player's step. |
| Table.StakeStep | src/main/java/com/example/bot/BlackjackGame.java:353-364 | One pass of the deal loop: a player who cannot cover the bet is unseated; otherwise the bet is debited and logged and a two-card hand dealt. |
| Table.StakeSeats | src/main/java/com/example/bot/BlackjackGame.java:352-365 | The deal loop over the seating snapshot computes the deal. |
| Table.StakeAllBalanceAt | src/main/java/com/example/bot/BlackjackGame.java:354-359 | After the deal a player's balance is their old one less their bet exactly when they stayed; everyone else's is unchanged. |
| Table.SeatStep | src/main/java/com/example/bot/BlackjackGame.java:357-363 | One player's step keeps their seat and deals two cards exactly when the balance they came in with covers the bet. |
| Table.StakeSeatsLast | src/main/java/com/example/bot/BlackjackGame.java:352-365 | The seats and the cards dealt after the deal extend by one more player. |
| Table.StakeSeatsFrom | src/main/java/com/example/bot/BlackjackGame.java:352-365 | After the deal over the first players, the seats are the kept ones followed by the rest, with two cards dealt per kept player. |
| Table.StakeAllSeats | src/main/java/com/example/bot/BlackjackGame.java:352-365 | After the deal over the first players of the seats, the seats are the players kept so far followed by the players not yet reached, and two cards have been dealt per kept player. |
| Table.StakeOneLedger | src/main/java/com/example/bot/BlackjackGame.java:359-360 | A step logs a BET entry of minus the bet, with the new balance, exactly when the player can cover it. |
| Table.LedgerOfAppended | src/main/java/com/example/bot/BlackjackGame.java:1005-1009 | `appendLedger` creates the ledger when missing and changes only that user's ledger. |
| Table.StakeAllLedgerKeys | src/main/java/com/example/bot/BlackjackGame.java:360 | After the deal a ledger exists for the old holders and for every kept player. |
| Table.StakeLedgerLast | src/main/java/com/example/bot/BlackjackGame.java:359-360 | The last player of the snapshot gets their BET entry against the balance they came in with. |
| Table.StakeLedgerOther | src/main/java/com/example/bot/BlackjackGame.java:359-360 | Another player's step leaves a player's ledger alone. |
| Table.StakeLedgers | src/main/java/com/example/bot/BlackjackGame.java:352-365 | After the deal each kept player's ledger has exactly one new BET entry in front; the others are unchanged. |
| Table.StakeAllLedgerAt | src/main/java/com/example/bot/BlackjackGame.java:352-365 | A kept player's ledger gains exactly one BET entry in front, of minus their bet with the balance they came in with less the bet, capped at 100; everyone else's ledger is unchanged. |
| Table.HandsStep | src/main/java/com/example/bot/BlackjackGame.java:362-364 | One step gives the player one fresh hand when they can cover the bet and touches no one else's hands. |
| Table.StakeHands | src/main/java/com/example/bot/BlackjackGame.java:352-365 | After the deal each kept player holds one unresolved two-card hand carrying their bet; others keep theirs. |
| Table.StakeAllHandsAt | src/main/java/com/example/bot/BlackjackGame.java:352-365 | After the deal the hands exist for the old holders and the kept players; each kept player holds one unresolved two-card hand carrying their bet, and everyone else keeps their hands. |
| Table.DealKeeps | src/main/java/com/example/bot/BlackjackGame.java:352-365 | The deal keeps exactly the players who can cover their bet, keeps the key sets of balances and ledgers, and keeps the table consistent. |
| Table.DealerDrawStep | src/main/java/com/example/bot/BlackjackGame.java:383-387 | Drawing below 17 extends the dealer's cards from the shoe in order and raises the all-aces-low total. |
| Table.DealerDraws | src/main/java/com/example/bot/BlackjackGame.java:383-387 | The dealer ends at 17 or more, having appended the next shoe cards while below 17. |
| Table.RoundLinesSnoc | src/main/java/com/example/bot/BlackjackGame.java:506-549 | The round's log over one more player adds that player's lines. |
| Table.SettledAllStep | src/main/java/com/example/bot/BlackjackGame.java:506-550 | Settling one more player extends the settlement of the players before. |
| Table.SettledOneHands | src/main/java/com/example/bot/BlackjackGame.java:511-549 | The per-hand sums of a player's hands settle that player. |
| Table.SettleUser | src/main/java/com/example/bot/BlackjackGame.java:507-549 | A player holding hands has their credits, wins, losses and net merged in, their lines logged and one ledger entry per hand pushed in front in order from their balance before; a player without hands is skipped. |
| Table.SettleAll | src/main/java/com/example/bot/BlackjackGame.java:506-550 | The player loop settles every seated player in order, each one's ledger gaining the entries of their own hands. |
| Table.SettledLedgerAt | src/main/java/com/example/bot/BlackjackGame.java:506-550 | Over distinct players, each one's ledger gains the entries settling their own hands, newest first and capped, from their balance before the round; everyone else's ledger stays. |
| Table.WidenKeeps | src/main/java/com/example/bot/BlackjackGame.java:525-546 | Giving more users balances, counters and capped ledgers keeps the table consistent. |
| Table.Table.constructor | src/main/java/com/example/bot/BlackjackGame.java:63-126 | A table starts empty, in LOBBY, not running, with the loaded balances, wins and losses: no seats, waiting users, queues, hands, pending bets, round nets, ledgers or history, no current player, and an empty, hidden dealer hand. |
| Table.Table.AppendLedger | src/main/java/com/example/bot/BlackjackGame.java:1005-1009 | The entry goes first in the user's ledger, which is created when missing and capped at 100. |
| Table.Table.AddBalance | src/main/java/com/example/bot/BlackjackGame.java:132-139 | Adds the amount to the balance (100 if unknown) and logs ADMIN_FUNDS with the new balance. |
| Table.Table.BuyIn | src/main/java/com/example/bot/BlackjackGame.java:142-157 | At 50 or more nothing changes; below 50 the balance becomes 100 and BUY_IN is logged with delta -(100 - old balance). |
| Table.Table.ClearBet | src/main/java/com/example/bot/BlackjackGame.java:159-164 | The pending bet is dropped only in BETTING for a seated player. |
| Table.Table.PlaceBet | src/main/java/com/example/bot/BlackjackGame.java:166-184 | A bet is recorded exactly when in BETTING, seated, the amount is one of 5, 10, 25, 50, 100, 500, 1000 and the balance covers it; otherwise pending bets are unchanged. |
| Table.Table.Register | src/main/java/com/example/bot/BlackjackGame.java:189-195 | A user gets balance 100, zero counters, an empty ledger and a queue, each only when missing. |
| Table.Table.Seat | src/main/java/com/example/bot/BlackjackGame.java:197-214 | A present user stays put. A new user is seated with a default bet of 5 in BETTING, waits while a round is active, and is seated otherwise. The user ends in exactly one of seated and waiting, and the table runs. |
| Table.Table.SeatAt | src/main/java/com/example/bot/BlackjackGame.java:206 | The user is appended to the seats. |
| Table.Table.WaitAt | src/main/java/com/example/bot/BlackjackGame.java:209 | The user is added to the waiting set. |
| Table.Table.Join | src/main/java/com/example/bot/BlackjackGame.java:186-216 | `join` adds the user to balances, wins, losses, ledgers and queues only where absent and starts the game. A new user is seated with the default bet during BETTING, put waiting during an active round, and seated otherwise; they end in exactly one of seated and waiting. A user already present changes neither seating nor pending bets. |
| Table.Table.Offer | src/main/java/com/example/bot/BlackjackGame.java:823-826 | An action is queued only when the user has a queue with room (16). |
| Table.Table.Unseat | src/main/java/com/example/bot/BlackjackGame.java:219-221 | The user leaves the seats, the waiting set and the queues. |
| Table.Table.Leave | src/main/java/com/example/bot/BlackjackGame.java:218-238 | `leave` removes the user from seated, waiting and the mailboxes, with their hands and pending bet; balances, wins, losses and the ledger stay. An empty table clears the current player. The STAND offer finds no queue. |
| Table.Table.ForgetPlayer | src/main/java/com/example/bot/BlackjackGame.java:222-235 | Drops the user's hands and bet; the current player is cleared exactly when the table is empty. |
| Table.Table.Act | src/main/java/com/example/bot/BlackjackGame.java:240-245 | An action is queued only in PLAYING, with the round active, for the current player. |
| Table.Table.HistoryPrev | src/main/java/com/example/bot/BlackjackGame.java:275-283 | With no history nothing changes; otherwise the page moves one older, clamped to the oldest. |
| Table.Table.HistoryNext | src/main/java/com/example/bot/BlackjackGame.java:285-290 | The page moves one newer, clamped at 0. |
| Table.Table.AdmitWaiting | src/main/java/com/example/bot/BlackjackGame.java:314-315 | The waiting users are appended after the seated ones, each once, and the waiting set is emptied. |
| Table.Table.OpenBetting | src/main/java/com/example/bot/BlackjackGame.java:311-324 | A round starts in BETTING with the waiting users seated and the hands, dealer, bets and nets cleared. |
| Table.Table.ClearRound | src/main/java/com/example/bot/BlackjackGame.java:311-324 | The round state is cleared and the phase is BETTING. |
| Table.Table.AllSeatedHaveBet | src/main/java/com/example/bot/BlackjackGame.java:331-335 | The test holds exactly when every seated player has a pending bet. |
| Table.Table.StoreTurn | src/main/java/com/example/bot/BlackjackGame.java:411-499 | Writes a player's turn back into the table's maps and keeps it consistent. |
| Table.Table.WriteTurn | src/main/java/com/example/bot/BlackjackGame.java:411-499 | Writes back and closes a finished turn, as the value model of the turns says. |
| Table.Table.CloseTurn | src/main/java/com/example/bot/BlackjackGame.java:417-430 | A natural adds a win and round(1.5 x bet) to the net; a player with hands becomes the current player at the last hand visited. |
| Table.Table.TakePlayerTurns | src/main/java/com/example/bot/BlackjackGame.java:411-499 | Computes PlayerTurns on the play state: nothing for a player without hands or seat; otherwise only that player's entries change (PlayerTurnsKeeps, PlayerTurnsOwn), their hands are resolved while running, and a natural adds one win and its net (PlayerTurnsMarks). |
| Table.Table.PlayerTurn | src/main/java/com/example/bot/BlackjackGame.java:411-499 | For a seated player holding hands, the play state becomes PlayerTurns of the old one: the walk over their hands written back, a natural counted and the marker on the last hand visited. |
| Table.Table.PlayTurns | src/main/java/com/example/bot/BlackjackGame.java:370-373 | The play state becomes TurnsPlayed of the old one: every seated player in seating order on a running table, nothing when it is stopped; every seated player's hands end resolved while running. |
| Table.Table.NextTurn | src/main/java/com/example/bot/BlackjackGame.java:370-373 | One pass of the turn loop extends AllTurns by the next seated player. |
| Table.Table.DealerPlay | src/main/java/com/example/bot/BlackjackGame.java:376-387 | The hole card is shown and the dealer draws from the shoe until at 17 or more. |
| Table.Table.LogRound | src/main/java/com/example/bot/BlackjackGame.java:552-556 | The round goes first in a history capped at 20, and the page resets to 0. |
| Table.Table.SettleRound | src/main/java/com/example/bot/BlackjackGame.java:501-556 | Every seated player holding hands is settled against the dealer's total: balances, wins, losses and round nets move as SettledAll says from the books before, each player's ledger gains one entry per hand in order, and the round is logged newest first with the page reset. |
| Table.Table.StoreBooks | src/main/java/com/example/bot/BlackjackGame.java:525-546 | Writes the settled books back and keeps the table consistent. |
| Table.Table.CloseBetting | src/main/java/com/example/bot/BlackjackGame.java:339-365 | With nobody seated the round ends in LOBBY with nothing dealt, nobody debited or unseated and the dealer untouched; otherwise the dealer gets the next two cards and the seated players are staked. |
| Table.Table.PlayOut | src/main/java/com/example/bot/BlackjackGame.java:370-399 | The play state after the turns is TurnsPlayed of the old one; the dealer then draws to 17 or more from the shoe, the books move from those after the turns as SettledAll says, the round, holding the dealer's cards and total, is logged in front of the older rounds, and the table is back in LOBBY. |
| Table.Table.FinishRound | src/main/java/com/example/bot/BlackjackGame.java:376-399 | The dealer draws to 17 or more from the shoe, the books move from the old ones as SettledAll says, the round, holding the dealer's cards and total, is logged in front of the older rounds, and the table is back in LOBBY. |
| Table.Table.Showdown | src/main/java/com/example/bot/BlackjackGame.java:376-389 | The dealer draws to 17 or more from the shoe, and the books (balances, wins, losses, round nets, ledgers and the round's lines) move from the old ones as SettledAll says. The turn marker is cleared and the round, holding the dealer's cards and total, is logged in front of the older rounds. |
| Table.Table.EndRound | src/main/java/com/example/bot/BlackjackGame.java:396-399 | The round ends in LOBBY with no current player. |
| Table.Table.IdleClose | src/main/java/com/example/bot/BlackjackGame.java:889-898 | With anyone seated or waiting nothing changes; an empty table stops and resets the round state. |
| Table.Table.StakeTable | src/main/java/com/example/bot/BlackjackGame.java:352-365 | The deal loop over the seating snapshot, on the table's fields. |
| Table.Table.Deal | src/main/java/com/example/bot/BlackjackGame.java:347-365 | The phase becomes PLAYING, the dealer gets the next two cards face down, and the seated players are staked from the following cards. |

## Left out

- Threads and timing are left out: the game thread and `gameLoop`, `sleep`, the betting window's deadline and the 45-second blocking poll. Bets are placed or cleared between `OpenBetting` and `CloseBetting`, and a poll timeout is a `None` in the action sequence.
- The idle-close timer is left out; `IdleClose` is its task body, run whenever the caller decides, and `cancelIdleClose` has nothing to cancel in the model.
- The Discord side is left out: table messages, embeds, buttons, notices, the results screen, `showLedger` and the RESULTS phase, which only the display reads.
- Randomness is an input: the shoe `draw: nat -> Card` replaces `RNG` in `dealCard`. Timestamps of ledger entries and round logs are dropped.
- The per-channel maps of history, page and messages become single fields: one table is modelled.
- File I/O in `saveState` and `loadState` is left out, as is the ledger section that `saveState` writes. The `putAll` merge of loaded maps is replaced by passing them to the constructor.
- Table.StakeAllHandsAt: says each kept player holds one two-card hand with their bet, but not which shoe cards they hold.
- Table.SettleUser: when a player holds hands but their map entry is missing, the model creates an entry starting from 0. This is what `merge` does. The LOSS ledger entry reads `getOrDefault(uid, 100)`, which only differs from the stored balance for a player without one, and a seated player always has one.
- The natural's payout follows the code, round(2.5 x bet) on top of a balance already debited. For a 20 bet from 100 that ends at 130 (a net of +1.5 x bet), not the 110 that paying 1.5 x bet on the debited 80 would give (a net of +0.5 x bet).
- The natural hand is settled a second time by `settleRound`, as the code does (Hands.NaturalSettledAgain); the model does not correct it.
- In `leave` the queue is removed before `offerAction`, so the STAND for the current player is dropped. The model keeps that order, and `Leave` queues nothing.
- Persist.SavedBalancesReadBack: the read-back is proved for the balances section, which comes first in the saved text. A key such as `wins` can also appear inside an earlier map as a user id, and the reading of such a document is not characterised.
- `downloadAndQueueSong`, `clearDownloadsFolder`, the process, the file checks and the messages of `queueAndPlay` are left out; `QueueAndPlay` stops at the job handed to the queue.
- `loadConfig` and `ensureConfigFileExists` in ConfigUtils.java are left out; they read JSON through a library and write files. `System.getenv` is the `Option<string>` parameter of the path functions.
- Table.Table.AddBalance: balances are Java `int`, and `merge(uid, amount, Integer::sum)` wraps past 2^31 - 1. The model adds without bound, so a sum that overflows is not wrapped. The same holds for the bet debits of the turns and for the settlement credits added by Table.SettleUser.
- Text.ParseInt: only the ASCII digits 0-9 are read. Java's `Integer.parseInt` also accepts the other Unicode decimal digits (through `Character.digit`), so a value written with them is skipped here where Java would read it.
- Java strings are UTF-16 and `replaceAll` works on code points. The model's strings are sequences of Unicode characters, so a character outside the basic plane is one character here.
