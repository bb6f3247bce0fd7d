# SchottenRust rules engine in Dafny

This project models the rules engine of SchottenRust, a two-player card game
on nine stones ("Schotten Totten"). Each player commits up to three cards to
each stone. A full hand of three scores by category: colour run, three of a
kind, colour, run, or plain sum. A player claims a stone when their full hand
provably cannot be beaten, either by the opponent's full hand (ties go to the
player who first filled a hand there, the advantage holder) or by any
completion of the opponent's partial hand from the cards nobody has committed
yet. The game ends when a player owns three neighbouring stones, or five
stones.

The model has one module per source file:

- `Components` (`src/components.rs`): cards, players and stones as datatypes.
  Their fields are subset types, and each `build` returns `None` where the
  Rust code panics.
- `Stonecards` (`src/board/cards_on_board/stonecards.rs`): a stone hand as a
  value, and its strength. The strength is written branch by branch as the
  source computes it (`Score`). It is proved equal to an order-free reference
  table (`ReferenceScore`), independent of push order, and ordered by
  category.
- `AdvantageLedger`, `ClaimsLedger` (`advantage.rs`, `claims.rs`): classes
  over fixed nine-entry arrays.
- `Rules`: reference definitions on plain values, against which the board is
  proved: when a claim is legal (`LegalClaim`), who has won (`Winner`), and
  which stones are open (`AvailableFrom`).
- `Board` (`src/board/cards_on_board.rs`): the `PresentCards` 9 x 6 table
  (a class over `array2<bool>`) and the `CardsOnBoard` aggregate.
  `proto_is_legal_claim` becomes nested loops over (number, colour), as the
  source enumerates them. These loops are proved to decide `LegalClaim`
  exactly. `terminal_state` becomes a scan loop proved to compute `Winner`.
- `Workers`, `Jobs` (`jobs/worker.rs`, `jobs.rs`): the completion cache. Its
  workers yield completions one at a time. For a 2-card hand this is the
  sorted list of every card not in the hand. For smaller hands the rows come
  from tables on disk, which the model takes as a parameter
  (`BackingTables`).
- `Decks`, `Hands` (`src/board/deck.rs`, `src/board/hand.rs`): the draw pile
  and a player's hand. The deck's shuffle is a Fisher-Yates pass driven by a
  sequence of rolls given as a parameter.

Two points of the code that the model keeps as written:

- Completions of a partial opponent hand are compared with a strict `>`, and
  the advantage is not consulted (`cards_on_board.rs:1184-1228`). The model
  does the same. `Board.ClaimantHoldsAdvantage` shows that this is the
  advantage tie rule on every board the operations reach: a claimant whose
  hand is full while the opponent's is not always holds the advantage there.
- `Advantage.set` overwrites an existing entry (`advantage.rs:59-61`); only
  `place_card` guards it. `Advantage.Set` overwrites likewise.
  `CardsOnBoard.PlaceCard` keeps the guard, and its invariant says the
  advantage, once set, belongs to a player whose hand is full.

## Model

| member | source | states |
|---|---|---|
| Components.BuildCard | src/components.rs:83-91 | a card exactly when 1 <= num <= 9 and 1 <= color <= 6, carrying those values; `None` where `build` panics |
| Components.BuildCardInjective | src/components.rs:77-91 | two built cards are equal exactly when they were built from equal number and colour (derived `PartialEq`) |
| Components.NumIndex | src/components.rs:95 | the row index is below 9 and is the number minus one |
| Components.ColorIndex | src/components.rs:99 | the column index is below 6 and is the colour minus one |
| Components.CardAt | src/board/cards_on_board.rs:1169-1172 | the k-th card of the number-major enumeration has enumeration position k |
| Components.CardAtIndex | src/board/cards_on_board.rs:1169-1172 | every card is the card at its own enumeration position, so the enumeration reaches every card |
| Components.AllCards | src/board/deck.rs:54-58 | the unshuffled deck: 54 cards, the k-th being the k-th card of the number-major enumeration |
| Components.AllCardsOnce | src/board/deck.rs:54-58 | the 54-card enumeration holds every card exactly once |
| Components.BuildPlayer | src/components.rs:107-111 | a player exactly when the index is below 2, with that index |
| Components.GetPlayer | src/components.rs:113-115 | the displayed number is the index plus one, in 1..2 |
| Components.GetIndex | src/components.rs:117-119 | the index is below the number of players |
| Components.GetOther | src/components.rs:121-126 | the opponent differs from the player and the two indices sum to 1 |
| Components.OtherInvolutive | src/components.rs:121-126 | the opponent of the opponent is the player |
| Components.OtherIsOnlyOther | src/components.rs:121-126 | every player is the given one or its opponent |
| Components.BuildStone | src/components.rs:135-139 | a stone exactly when the index is below 9, with that index |
| Components.GetStone | src/components.rs:141-143 | the displayed number is the index plus one, in 1..9 |
| Components.StoneIndexOf | src/components.rs:145-147 | the index is below the number of stones |
| Stonecards.NewStoneCards | src/board/cards_on_board/stonecards.rs:96-98 | the new hand is empty, valid and not full |
| Stonecards.StoneCards.IsFull | src/board/cards_on_board/stonecards.rs:100 | a full hand holds exactly three cards; a valid hand that is not full holds fewer than three |
| Stonecards.StoneCards.Len | src/board/cards_on_board/stonecards.rs:162 | the number of cards pushed, at most three on a valid hand |
| Stonecards.StoneCards.Push | src/board/cards_on_board/stonecards.rs:102-106 | fails exactly on a full hand, otherwise appends the card at the end and keeps the hand within three cards |
| Stonecards.StoneCards.Strength | src/board/cards_on_board/stonecards.rs:108-156 | the strength of a full hand lies in 4..72 |
| Stonecards.StoneCards.At | src/board/cards_on_board/stonecards.rs:165-169 | the indexed card is one of the hand's cards |
| Stonecards.SortedNums | src/board/cards_on_board/stonecards.rs:134-135 | the numbers in ascending order: the lowest first, the highest last, the same sum |
| Stonecards.Score | src/board/cards_on_board/stonecards.rs:126-155 | the branch-by-branch strength of three cards lies in 4..72 |
| Stonecards.ScoreIsReference | src/board/cards_on_board/stonecards.rs:108-156 | the branch-by-branch strength equals the table: three of a kind 56 + num, colour run 65 + lowest, run 26 + lowest, colour 33 + sum, else the sum; the category taken is the table's |
| Stonecards.StrengthPermutation | src/board/cards_on_board/stonecards.rs:126-155 | two hands with the same cards in any order have the same strength and category |
| Stonecards.StrengthBands | src/board/cards_on_board/stonecards.rs:109-119 | for distinct cards each category scores within its band: sum 4-26, run 27-33, colour 40-56, three of a kind 57-65, colour run 66-72 |
| Stonecards.CategoryOrder | src/board/cards_on_board/stonecards.rs:24-87 | for distinct cards a higher category always scores strictly more, the order the strength test checks |
| AdvantageLedger.Advantage.constructor | src/board/cards_on_board/advantage.rs:55-57 | all nine entries are `None` |
| AdvantageLedger.Advantage.Set | src/board/cards_on_board/advantage.rs:59-61 | the stone's entry becomes the player and no other entry changes |
| AdvantageLedger.Advantage.SetMulti | src/board/cards_on_board/advantage.rs:63-67 | every listed stone gets the player, every other stone keeps its entry |
| AdvantageLedger.Advantage.At | src/board/cards_on_board/advantage.rs:69-73 | the stored entry of the stone |
| ClaimsLedger.Claims.constructor | src/board/cards_on_board/claims.rs:54-56 | all nine stones unclaimed |
| ClaimsLedger.Claims.Claim | src/board/cards_on_board/claims.rs:58-60 | the stone's entry becomes the player and no other entry changes |
| ClaimsLedger.Claims.ClaimMany | src/board/cards_on_board/claims.rs:62-66 | every listed stone becomes the player's, every other stone keeps its entry |
| ClaimsLedger.Claims.WhoClaimed | src/board/cards_on_board/claims.rs:68-70 | the stored claim of the stone |
| ClaimsLedger.Claims.Unclaim | src/board/cards_on_board/claims.rs:73-75 | the stone's entry becomes `None` and no other entry changes |
| ClaimsLedger.Claims.Entries | src/board/cards_on_board/claims.rs:77-79 | the nine entries in stone order |
| ClaimsLedger.ClaimThenUnclaim | src/board/cards_on_board/claims.rs:58-75 | claiming an unclaimed stone then unclaiming it leaves the ledger's entries as they were |
| Rules.IdenticalHands | src/board/cards_on_board.rs:1177-1183 | against an identical full hand a claim is legal exactly for the advantage holder |
| Rules.LegalMorePresent | src/board/cards_on_board.rs:1169-1228 | marking more cards present never makes a legal claim illegal |
| Rules.LegalOpponentCard | src/board/cards_on_board.rs:1143-1228 | a legal claim stays legal when the opponent adds an unseen card, given that the claimant holds the advantage if that card fills the opponent's hand |
| Rules.FirstRunFromFacts | src/board/cards_on_board.rs:1253-1262 | the run found from stone j on exists exactly when some stone k >= j ends three neighbouring stones of one owner, and it is the first such k |
| Rules.RunWins | src/board/cards_on_board.rs:1253-1269 | when the first run of three ends at stone k, its owner is the winner |
| Rules.NoRunMajority | src/board/cards_on_board.rs:1271-1274 | with no run of three, five stones or more win, player 0 checked first; otherwise nobody has won |
| Rules.CountsAddUp | src/board/cards_on_board.rs:1263-1266 | the unclaimed count and both players' counts add up to the number of stones scanned |
| Rules.WinnerJustified | src/board/cards_on_board.rs:1244-1275 | a winner owns a run of three or at least five stones; no winner means no run and fewer than five each |
| Rules.AvailableFrom | src/board/cards_on_board.rs:1277-1293 | exactly the unclaimed stones whose hand is not full, in strictly ascending order |
| Board.PresentCards.constructor | src/board/cards_on_board.rs:1389-1391 | no card is present |
| Board.PresentCards.AddCard | src/board/cards_on_board.rs:1393-1395 | the present set grows by exactly the card, and the table still marks exactly that set |
| Board.PresentCards.IsPresent | src/board/cards_on_board.rs:1397-1399 | true exactly for the cards added so far |
| Board.PlaceKeepsInvariant | src/board/cards_on_board.rs:1143-1155 | placing a card on a non-full hand keeps the board invariant: hands of at most three, committed cards present, advantage set exactly where a hand is full, to a player with a full hand |
| Board.ClaimantHoldsAdvantage | src/board/cards_on_board.rs:1150-1153 | on a board, a player whose hand is full while the opponent's is not holds the advantage at that stone |
| Board.ScanStep | src/board/cards_on_board.rs:1253-1267 | one step of the claims scan keeps the streak length and owner and the per-owner counts in step with the stones scanned |
| Board.CardsOnBoard.constructor | src/board/cards_on_board.rs:1124-1141 | every hand is empty, nothing is present, no advantage and no claim is set, and the board invariant holds |
| Board.CardsOnBoard.PlaceCard | src/board/cards_on_board.rs:1143-1155 | the card becomes present and is appended to the player's hand at the stone; the player gets the advantage there exactly when this filled the hand and nobody had it; the invariant is kept |
| Board.CardsOnBoard.NoOneCardBeats | src/board/cards_on_board.rs:1184-1195 | true exactly when no non-present card completes the opponent's 2-card hand to more than the strength |
| Board.CardsOnBoard.NoTwoCardsBeat | src/board/cards_on_board.rs:1196-1210 | true exactly when no pair of distinct non-present cards completes the opponent's 1-card hand to more than the strength |
| Board.CardsOnBoard.NoSecondCardBeats | src/board/cards_on_board.rs:1198-1206 | for a fixed first card, true only when no second card beats; false only when some completion beats |
| Board.CardsOnBoard.NoThreeCardsBeat | src/board/cards_on_board.rs:1211-1228 | true exactly when no three distinct non-present cards score more than the strength |
| Board.CardsOnBoard.NoLastTwoBeat | src/board/cards_on_board.rs:1213-1224 | for a fixed first card, true only when no second and third card beat; false only when some triple beats |
| Board.CardsOnBoard.NoThirdCardBeats | src/board/cards_on_board.rs:1214-1223 | for fixed first two cards, true only when no third card beats; false only when some triple beats |
| Board.CardsOnBoard.ProtoIsLegalClaim | src/board/cards_on_board.rs:1157-1232 | the result is exactly `LegalClaim`: the claimant's hand is full, and it beats the opponent's full hand (ties to the advantage holder) or no completion of the opponent's partial hand from non-present cards scores more |
| Board.CardsOnBoard.Claim | src/board/cards_on_board.rs:1234-1242 | succeeds exactly when the stone is unclaimed and the claim is legal; on success only that stone's entry becomes the player, otherwise nothing changes |
| Board.CardsOnBoard.TerminalState | src/board/cards_on_board.rs:1244-1275 | the result is exactly `Winner` of the claims: the owner of the first run of three, else a player with five stones (player 0 first), else none |
| Board.CardsOnBoard.FullFlags | src/board/cards_on_board.rs:1290 | per stone, whether the player's hand there is full |
| Board.CardsOnBoard.AvailableStones | src/board/cards_on_board.rs:1277-1284 | exactly the unclaimed stones, in ascending order |
| Board.CardsOnBoard.AvailableStonesFor | src/board/cards_on_board.rs:1286-1293 | exactly the unclaimed stones where the player's hand is not full, in ascending order |
| Board.CardsOnBoard.AnyAvailableStonesFor | src/board/cards_on_board.rs:1295-1302 | true exactly when some unclaimed stone has a non-full hand for the player, that is when `AvailableStonesFor` is non-empty |
| Workers.Worker.Pending | src/board/cards_on_board/jobs/worker.rs:44-48 | a full hand has nothing pending; a 2-card worker yields its remaining cards one per item; a table worker yields its remaining rows |
| Workers.Worker.Work | src/board/cards_on_board/jobs/worker.rs:70-89 | yields the first pending item and leaves the rest pending, or `None` once nothing is pending |
| Workers.Without | src/board/cards_on_board/jobs/worker.rs:93-97 | a card is kept exactly when it is in the enumeration and not in the hand |
| Workers.CandidatesOnce | src/board/cards_on_board/jobs/worker.rs:93-97 | the filtered enumeration holds every card outside the hand once and no card of the hand |
| Workers.InsertAt | src/board/cards_on_board/jobs/worker.rs:99-105 | one insertion pass: the array stays a permutation of itself and its first i + 1 keys become sorted |
| Workers.TwoCompletions | src/board/cards_on_board/jobs/worker.rs:92-108 | every card outside the 2-card hand exactly once, none of the hand, sorted by the strength of the hand each completes |
| Workers.NewWorker | src/board/cards_on_board/jobs/worker.rs:50-68 | a full hand gets no completions; two cards get the sorted singles; one card gets that card's table; no card gets the table of triples |
| Workers.WorkCollector.constructor | src/board/cards_on_board/jobs/worker.rs:16-24 | nothing is collected yet and the stream is the one `Worker::new` gives for the job |
| Workers.WorkCollector.Work | src/board/cards_on_board/jobs/worker.rs:26-30 | appends the next item of the stream, or changes nothing once the stream is exhausted |
| Workers.WorkCollector.Len | src/board/cards_on_board/jobs/worker.rs:32-34 | the number of collected items, never more than the stream holds |
| Workers.WorkCollector.At | src/board/cards_on_board/jobs/worker.rs:39-41 | the i-th collected item is the i-th item of the stream |
| Workers.DecodeCardAsWritten | src/board/cards_on_board/jobs/worker.rs:117 | as written, a decoded card's number is the record's tens digit |
| Workers.AsWrittenOnlyColourTwo | src/board/cards_on_board/jobs/worker.rs:117 | as written, no record decodes to a card of any colour but 2 |
| Workers.AsWrittenRejectsCard11 | src/board/cards_on_board/jobs/worker.rs:117 | as written, the record 11 of card (1, 1) is rejected |
| Workers.DecodeCard | src/board/cards_on_board/jobs/worker.rs:117 | corrected: a record decodes exactly when its tens digit is a number and its units digit a colour |
| Workers.DecodeEncode | src/board/cards_on_board/jobs/worker.rs:117 | corrected: decoding the record of any card gives back that card |
| Workers.EncodeDecode | src/board/cards_on_board/jobs/worker.rs:117 | corrected: every record that decodes is the record of the card it decodes to |
| Jobs.AnyPresent | src/board/cards_on_board/jobs.rs:73 | true exactly when some card of the completion is present |
| Jobs.JobManager.constructor | src/board/cards_on_board/jobs.rs:15 | the map is empty |
| Jobs.JobManager.AddJobs | src/board/cards_on_board/jobs.rs:55-63 | the keys become the old keys plus the listed hands; existing collectors are kept; each new one is fresh and started for its job |
| Jobs.JobManager.AddJob | src/board/cards_on_board/jobs.rs:58-61 | `or_insert`: adds a started collector only when the job is absent |
| Jobs.JobManager.Get | src/board/cards_on_board/jobs.rs:88-90 | the item under the cursor is that item of the job's stream |
| Jobs.JobManager.UpdateJob | src/board/cards_on_board/jobs.rs:65-86 | moves the cursor to the first completion at or after it that uses no present card; every skipped one uses a present card; collects exactly as far as needed |
| Jobs.BestOption.constructor | src/board/cards_on_board/jobs.rs:14-38 | the cache holds only the empty hand's started job, and all 2 x 9 cursors point at its start |
| Decks.SwapKeepsMultiset | src/board/deck.rs:60 | one swap of the shuffle keeps the deck's cards |
| Decks.Deck.constructor | src/board/deck.rs:51-63 | the deck holds 54 cards, every card exactly once, whatever the shuffle |
| Decks.Deck.Len | src/board/deck.rs:65 | the number of cards left |
| Decks.Deck.Draw | src/board/deck.rs:67 | removes and returns the last card, or `None` on an empty deck |
| Decks.Deck.At | src/board/deck.rs:72 | the indexed card is in the deck |
| Decks.DrawAll | src/board/deck.rs:37-44 | a new deck yields 54 cards, each card once, the shuffled deck read from its last card to its first, and then `None` |
| Hands.SwapRemove | src/board/hand.rs:15 | removal shortens the hand by one |
| Hands.SwapRemoveFacts | src/board/hand.rs:14-16 | removal takes out exactly the indexed card, moves the last card into its place and leaves every other position as it was |
| Hands.Hand.constructor | src/board/hand.rs:10-12 | the hand starts empty, with the given positive capacity |
| Hands.Hand.Remove | src/board/hand.rs:14-16 | returns the indexed card, and the hand becomes its swap-removal |
| Hands.Hand.Add | src/board/hand.rs:18-24 | appends the card to a hand that is not full |
| Hands.Hand.Len | src/board/hand.rs:26-28 | the number of cards, never above the capacity |
| Hands.Hand.At | src/board/hand.rs:33 | the indexed card is in the hand |

## Left out

- Rendering: the `Display` implementation and its string helpers (`cards_on_board.rs:1305-1383`) only produce text.
- File I/O: the workers for hands of fewer than two cards read `triplets_sorted.txt` and `duos_sorted_<num><color>`. The model passes the tables' rows in as `BackingTables`. The tables are not part of the repository, so it proves nothing about their contents or sorting.
- `parse_line` beyond one card's decoding: the model decodes a single two-digit record. It does not model `unwrap` on a failed read, the parsing of the text, or the `split("\n")` of a line that can hold no newline. The record layout of the tables is not part of this model.
- Randomness: `shuffle(&mut thread_rng())` becomes a Fisher-Yates pass driven by a `rolls` parameter. The test that two new decks differ is probabilistic and is not modelled.
- `CARDS_IN_HAND` is defined in a file outside this model. `Hands.Hand` takes the capacity as a constructor parameter.
- Panics become preconditions or `None`: `Card::build`, `Player::build` and `Stone::build` return `None`, and so does `push` on a full hand. `strength` requires a full hand; `place_card` and `Hand::add` require a non-full hand; `Hand::remove` requires an index in range. `update_job` requires that its job is in the map and that the stream holds a clean completion; the source asserts the latter at `jobs.rs:80`. `update_job` and `get` also require `id.index < |data|`: the source indexes the collector's data (`jobs.rs:71`, `jobs.rs:89`) before any `work()`, so `update_job` on a collector that has yielded nothing panics there, and that includes every cursor `BestOption::new` creates (index 0 of an empty collector). A hand longer than three, on which `Worker::new` panics, is excluded by `StoneCards.Valid`.
- Integer widths: every `u8` in the core stays small: at most 72 in `strength`, at most 9 in the terminal counts, at most 96 in a card record. So no wrap-around is modelled.
- Workers.TwoCompletions: proves the result sorted by key and a permutation of the candidates. It does not prove that equal keys keep their enumeration order, as the stable `sort_by_cached_key` does.
- Jobs.JobManager.AddJobs: `HashSet` iteration order is not modelled. The set is consumed in an arbitrary order (`:|`), and the contract holds for every order.
- Board.CardsOnBoard.TerminalState: requires only that the claims ledger is well formed, since it reads nothing else.
- `Job` is declared in the `Workers` module. In the source it lives in `jobs.rs` and `worker.rs` imports it; declaring it there avoids a module cycle.
- The game loop, the players and the entry point (`src/lib.rs`, `src/player*.rs`, `src/main.rs`) are not part of this model.
- Runtime `assert!`s on constants (`NUM_OF_PLAYERS == 2` at `components.rs:123`, `STONE_CARDS_LIMIT == 3` at `cards_on_board.rs:1167` and `worker.rs:18`, `NUM_OF_STONES == 9` at `cards_on_board.rs:1246`) always hold given the constants' values, so the model has no path for them.

## Findings

| source | as written | input that shows it | evidently intended | confidence | as-written member | corrected member |
|---|---|---|---|---|---|---|
| src/board/cards_on_board/jobs/worker.rs:117 | `Card::build(num / 10, num & 10)` takes the colour as a bitwise and with 10, which yields only 0, 2, 8 or 10 | record 11, card (1, 1): 11 & 10 = 10 is no colour, so `build` panics; no card of colour 1, 3, 4, 5 or 6 can ever be decoded | the units digit, `num % 10` | high, not executed | Workers.DecodeCardAsWritten, Workers.AsWrittenRejectsCard11, Workers.AsWrittenOnlyColourTwo | Workers.DecodeCard, Workers.DecodeEncode, Workers.EncodeDecode |
