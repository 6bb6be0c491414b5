# python-study kernels in Dafny

This project models the small deterministic kernels of the python-study
teaching repository and proves what their code promises. Each kernel is one
Dafny module (two or three where the source splits it). Code that changes
objects in place is modelled by classes with `modifies` clauses. Pure code
is modelled by functions and lemmas. Loops that update state step by step
(the game loop of hangman, the split and decision loops and the dealer's
draws in blackjack, the counters of `project_progress`, the card
insertion) are `while` loops with invariants. Loops that only read and
compute a value (`get_results`, the checks of `load_configs`, the
decision collection in `play`, `phrase_exists`, `show_phrase_board`, the
loops of `load_phrases_bank`, `Resource.__eq__` and `Resource.has`) are
recursive functions or comprehensions.

- **Blackjack** (`BlackjackCards`, `BlackjackHand`, `BlackjackRound`,
  `BlackjackConfig`).
  - Cards and the 52-card deck.
  - The hand totals `min_total`, `max_total` and `best_value`.
  - The draw pile, a multiset of cards changed in place by `draw` and
    `recompose`.
  - The `Hand` object: its auto-closing on 21 or a bust, plus `add_card`,
    `split`, `double` and `surrender`.
  - The checks `play` makes before it accepts a split, a double or a
    surrender, and the `temp_bankroll` escrow.
  - `process_decisions`: two loops that splice the hand list and the decision
    list.
  - The dealer's draw loop, with its six-and-ace special case.
  - The settlement of `get_results`.
  - The key, type and range checks of `load_configs`.
  - Two quirks are kept as written: `double` neither draws nor closes the
    hand, and the split budget `num_split` is never decremented.
- **Hangman** (`Hangman`, `HangmanLoader`).
  - `check_phrase`.
  - The phrase bank, an ordered dictionary of lists changed in place by
    `add_phrase` and `rmv_phrase`.
  - `sorted_phrases_bank` and the `ask_command` parser.
  - The board string.
  - The guessing loop of `play`, over a list of inputs.
  - The validation `load_phrases_bank` applies to the decoded file.
  - The two drafts share this code. The later draft's `check_phrase` also
    rejects values that are not strings.
- **Bill splitter** (`BillSplitter`).
  - `get_command`.
  - `process_name`, in three steps: capitalise the words, tighten the
    hyphens with the regular expression, then upper-case every segment's
    first character with `upper_first_char`.
- **Flash cards** (`FlashCards`, `FlashSession`).
  - `is_valid_name`.
  - The zero-revision branch of `card_score`.
  - `reviewed_today`.
  - `score_cards` as a stable descending sort.
  - `insert_card` on a score-ordered list changed in place.
  - The counters of `project_progress`.
  - The application's `next_card` and `delete_card`, over an abstract card
    record.
- **Inventory** (`InventoryResource`, `InventoryKinds`, `InventoryStore`).
  - `Resource` keeps the counters `total` and `allocated` with
    0 <= allocated <= total.
  - Composition-based equality and `has`.
  - The validating constructors of `Storage`, `HDD`, `SSD` and `CPU`.
  - `Inventory`, a category-to-list map with first-match removal and
    search.
- **Field validators** (`FieldValidator`).
  - String and number validation.
  - A descriptor that stores a value only after it validates, either in the
    instance's dictionary or in a store of its own.
- **Bank account** (`AccountCommon`, `BankAccount`, `BankAccountDraft`).
  - Name normalisation and a balance that never goes below zero.
  - Withdrawal and deposit outcome codes 'W', 'D' and 'X'.
  - The class-wide transaction counter.
  - The transaction string and its parser.
  - The earlier draft is modelled beside the later one.
  - Money is integer cents.
  - Timestamps are opaque strings, handed in as parameters.
- **ExceptionsEnum** (`ExceptionsEnum`).
  - The member table: code, exception class and default message.
  - Lookup by value.
  - `throw`.

`Wrappers`, `SeqUtil` and `Text` are shared helpers: Option/Result, list
distinctness, and Python's `str.split`, `join`, `lower`, `strip` and `int`
over ASCII (`int` here takes an optional sign and decimal digits only; the
`_` digit separators Python also accepts, as in `int("1_0")`, are not
modelled).

## Model

| member | source | states |
|---|---|---|
| BlackjackCards.RankValue | courses/100_days_of_code/blackjack/main.py:266-278 | an ace counts 1, a face card 10, a numeral its face value |
| BlackjackCards.BestValueFacts | courses/100_days_of_code/blackjack/main.py:279-308 | the higher total is the lower one plus 10 exactly when an ace is held; best value is the higher total when it is at most 21, else the lower one |
| BlackjackCards.MinTotalAppend | courses/100_days_of_code/blackjack/main.py:266-278 | the lower total of two concatenated card lists is the sum of their lower totals |
| BlackjackCards.MinTotalBounds | courses/100_days_of_code/blackjack/main.py:266-278 | each card adds between 1 and 10 to the lower total |
| BlackjackCards.MinTotalSnoc | courses/100_days_of_code/blackjack/main.py:231-240 | adding a card raises the lower total by at least 1 |
| BlackjackCards.TwoCardTwentyOne | courses/100_days_of_code/blackjack/main.py:214-222 | two cards make 21 exactly when one is an ace and the other is worth 10 |
| BlackjackCards.Deck | courses/100_days_of_code/blackjack/main.py:127-130 | the deck has 52 cards, rank by rank, each in the four suits |
| BlackjackCards.DeckHasEachCardOnce | courses/100_days_of_code/blackjack/main.py:127-130 | every rank-by-suit card occurs in the deck exactly once |
| BlackjackCards.FullPileCount | courses/100_days_of_code/blackjack/main.py:95-104 | a full pile holds each card `num_decks` times, 52 * `num_decks` cards in all |
| BlackjackHand.DrawCount | courses/100_days_of_code/blackjack/main.py:116-118 | at least one card is drawn, and `max(num_cards, 1)` cards otherwise |
| BlackjackHand.DrawPile.constructor | courses/100_days_of_code/blackjack/main.py:95-104 | a new pile holds every card `num_decks` times |
| BlackjackHand.DrawPile.Draw | courses/100_days_of_code/blackjack/main.py:105-122 | draws `max(k, 1)` cards that are in the pile, and the pile loses exactly their multiset; a pile with too few cards is an error and stays unchanged |
| BlackjackHand.DrawPile.Recompose | courses/100_days_of_code/blackjack/main.py:123-126 | the pile is full again |
| BlackjackHand.CheckedFacts | courses/100_days_of_code/blackjack/main.py:214-222 | the hand check keeps cards and bet and clears no flag; best value 21 sets twenty-one and closed, otherwise a lower total over 21 sets busted and closed |
| BlackjackHand.NewHandFlags | courses/100_days_of_code/blackjack/main.py:196-213 | a new hand is twenty-one exactly when its best value is 21, and busted exactly when it is not 21 and its lower total passes 21 |
| BlackjackHand.WithCardsFacts | courses/100_days_of_code/blackjack/main.py:231-240 | dealt cards are appended in order, and no flag is ever cleared |
| BlackjackHand.BustedStaysBusted | courses/100_days_of_code/blackjack/main.py:214-222 | a busted or closed hand stays so whatever it is dealt |
| BlackjackHand.InitLast | courses/100_days_of_code/blackjack/main.py:245-265 | the two parts of a split put back together are the original cards |
| BlackjackHand.Hand.constructor | courses/100_days_of_code/blackjack/main.py:196-213 | the hand holds the cards and the bet, with the flags its totals call for |
| BlackjackHand.Hand.CheckHand | courses/100_days_of_code/blackjack/main.py:214-222 | the hand's new state is the checked view |
| BlackjackHand.Hand.AddCard | courses/100_days_of_code/blackjack/main.py:231-240 | the card is appended and the totals are checked again |
| BlackjackHand.Hand.Double | courses/100_days_of_code/blackjack/main.py:241-244 | the bet doubles; no card is drawn and the hand stays open |
| BlackjackHand.Hand.Split | courses/100_days_of_code/blackjack/main.py:245-265 | the last card moves to a fresh hand carrying the given bet, and the original keeps the rest |
| BlackjackHand.Hand.Close | courses/100_days_of_code/blackjack/main.py:309-312 | the hand is closed and nothing else changes |
| BlackjackHand.Hand.Surrender | courses/100_days_of_code/blackjack/main.py:313-317 | the hand is closed and marked surrendered |
| BlackjackHand.Hand.SetAsBlackjack | courses/100_days_of_code/blackjack/main.py:318-322 | the hand is marked blackjack |
| BlackjackRound.ParseDecision | courses/100_days_of_code/blackjack/main.py:398-447 | only hit, stand, double, split and surrender are understood |
| BlackjackRound.JudgeSplit | courses/100_days_of_code/blackjack/main.py:401-418 | a split is accepted exactly when the budget is not zero, the hand is not two aces while split aces are off, it is a pair, and its bet fits the escrowed bankroll; the bankroll then loses the bet |
| BlackjackRound.JudgeDouble | courses/100_days_of_code/blackjack/main.py:419-433 | a double is accepted exactly when the hand is alone or doubling after splits is on, the lower total is 9 to 11 when doubles are restricted, and the bet fits the bankroll; the bankroll then loses the bet |
| BlackjackRound.JudgeEscrow | courses/100_days_of_code/blackjack/main.py:399-447 | an accepted decision lowers the escrowed bankroll by exactly its cost and never below zero; hit and stand always pass; surrender passes exactly when enabled |
| BlackjackRound.SplitBudgetNeverSpent | courses/100_days_of_code/blackjack/main.py:383 | with budget `max_num_hands - 1` = 1, a pair is still split when two hands are already held |
| BlackjackRound.EscrowCost | courses/100_days_of_code/blackjack/main.py:384-447 | the bankroll left after a pass of decisions is the bankroll minus their cost, and it is never negative |
| BlackjackRound.ExpandLength | courses/100_days_of_code/blackjack/main.py:521-548 | every split adds exactly one hand |
| BlackjackRound.CostExpand | courses/100_days_of_code/blackjack/main.py:521-548 | a round's cost is the bet of every split hand plus the cost of the doubles left once splits are resolved |
| BlackjackRound.ResolveSplits | courses/100_days_of_code/blackjack/main.py:528-538 | resolving splits leftmost-first gives the expanded hand list (each split hand followed by its split-off hand) and the expanded decisions (each split becomes two hits); the cost is the split bets |
| BlackjackRound.SplitFirst | courses/100_days_of_code/blackjack/main.py:530-537 | one split: the new hand goes in at index + 1, the decision becomes two hits, the bet is paid, and one split fewer remains |
| BlackjackRound.ApplyOne | courses/100_days_of_code/blackjack/main.py:539-547 | a hit draws one card and adds it, a stand closes, a double doubles the bet and costs the old bet, a surrender closes and marks, no decision does nothing |
| BlackjackRound.ApplyDecisions | courses/100_days_of_code/blackjack/main.py:539-548 | every hand gets its decision; the cost is the doubles' bets and the pile loses exactly the dealt cards |
| BlackjackRound.ProcessDecisions | courses/100_days_of_code/blackjack/main.py:521-548 | the hand list grows by exactly the number of splits, each hand ends as its decision leaves it, the cost is what the decisions cost, and the pile loses exactly the dealt cards |
| BlackjackRound.DealerPlay | courses/100_days_of_code/blackjack/main.py:550-557 | on a six and an ace the dealer draws once if soft 17 is hit and otherwise not at all; otherwise the dealer draws while the lower total is under 17 and the hand is open, and stops when that fails |
| BlackjackRound.DealerDrawLoop | courses/100_days_of_code/blackjack/main.py:555-557 | the draw loop ends with a lower total of 17 or more or a closed hand, and every card was drawn while the condition held |
| BlackjackRound.GetResults | courses/100_days_of_code/blackjack/main.py:559-586 | one result per hand, in order, each the settlement of that hand |
| BlackjackRound.SettlePayout | courses/100_days_of_code/blackjack/main.py:569-586 | surrendered gets bet // 2; busted gets 0; a dealer bust or a higher best value wins twice the bet; equal gets the bet back; lower gets nothing |
| BlackjackRound.SettleMonotone | courses/100_days_of_code/blackjack/main.py:569-586 | with the same bet and flags, a higher best value never pays less |
| BlackjackRound.PayoutBounds | courses/100_days_of_code/blackjack/main.py:559-586 | a round pays back between nothing and twice the total bet |
| BlackjackConfig.CheckValues | courses/100_days_of_code/blackjack/main.py:655-672 | no error exactly when every entry has its default's type and the integer entries are in range |
| BlackjackConfig.LoadConfigsWithOk | courses/100_days_of_code/blackjack/main.py:634-673 | the file loads exactly when it is missing or is an object the checks accept; what loads is accepted; a wrong key set reports exactly the missing and the unknown keys |
| BlackjackConfig.DefaultsAccepted | courses/100_days_of_code/blackjack/main.py:681-691 | the defaults pass their own checks |
| BlackjackConfig.DefaultKeysMismatchPlay | courses/100_days_of_code/blackjack/main.py:688 | every configuration loaded against the written defaults holds "split_in_aces", which `play` does not take, and lacks "enable_split_in_aces" |
| BlackjackConfig.IntendedKeysMatchPlay | courses/100_days_of_code/blackjack/main.py:323-337 | with the intended defaults, every loaded configuration names exactly the parameters of `play` |
| BlackjackConfig.LoadedRanges | courses/100_days_of_code/blackjack/main.py:662-672 | a loaded configuration has bool switches and integers from 1 to their maximum, so the split budget is between 0 and 5 |
| BlackjackConfig.BoolPassesAsInt | courses/100_days_of_code/blackjack/main.py:664-669 | `true` passes for an integer parameter and an integer does not pass for a bool one |
| BlackjackConfig.RulesOf | courses/100_days_of_code/blackjack/main.py:717-724 | each of the four rule switches `play(**configs)` receives is on exactly when the loaded file sets it to `true` |
| BlackjackConfig.LoadedRulesDecide | courses/100_days_of_code/blackjack/main.py:401-437 | under a loaded configuration, surrender is refused exactly when `enable_surrender` is off, and an otherwise splittable pair of aces is refused exactly when `enable_split_in_aces` is off |
| BlackjackConfig.LoadedRulesDecideDouble | courses/100_days_of_code/blackjack/main.py:419-428 | under a loaded configuration, a double with several hands is refused as "after split" exactly when `double_after_splits` is off, and a lone hand outside 9 to 11 is refused as restricted exactly when `restrict_double` is on |
| Hangman.CheckPhraseRejects | courses/100-days-of-code/hangman/main.py:194-222 | a phrase is rejected exactly when it is not ASCII, is blank, holds punctuation outside `!?-,.'`, or holds a digit |
| Hangman.CheckPhraseIdempotent | courses/100-days-of-code/hangman/main.py:211-222 | an accepted phrase is lower-case and single-spaced with no space at either end, so checking it again returns it unchanged |
| Hangman.SortedKeysOrdered | courses/100-days-of-code/hangman/main.py:118-129 | the keys come out ordered easy < normal < hard |
| Hangman.SortedKeysPermutation | courses/100-days-of-code/hangman/main.py:118-129 | the sorted keys are the same keys, each once |
| Hangman.SortedKeysCount | courses/100-days-of-code/hangman/main.py:118-129 | each difficulty appears once among the sorted keys when the bank holds it, and not at all otherwise |
| Hangman.RemoveFirst | courses/100-days-of-code/hangman/main.py:376-386 | `list.remove` takes out exactly one occurrence |
| Hangman.PhrasesBank.AddPhrase | courses/100-days-of-code/hangman/main.py:322-349 | rejects invalid and too-short phrases and returns an existing phrase without adding it; otherwise appends the normalised phrase to the list of its difficulty (under 5 distinct letters easy, under 8 normal, else hard), creating that key last; a well-kept bank stays well kept |
| Hangman.PhrasesBank.RmvPhrase | courses/100-days-of-code/hangman/main.py:358-386 | removes one occurrence from the first list holding the normalised phrase and drops the key if the list empties; an invalid or absent phrase changes nothing |
| Hangman.RemovalKeepsBank | courses/100-days-of-code/hangman/main.py:376-386 | removal keeps the bank an ordered dictionary, well kept if it was |
| Hangman.AskCommandBlank | courses/100-days-of-code/hangman/main.py:289-320 | a blank line fails to unpack; any other line gives a command |
| Hangman.AskCommandAddRmv | courses/100-days-of-code/hangman/main.py:301-320 | add and rmv with an argument carry the rest of the line; show, hide and menu with one are errors |
| Hangman.AskCommandAlone | courses/100-days-of-code/hangman/main.py:301-320 | a lone show, hide or menu gives its command; a lone add or rmv is an error; any other word is "Unknow command" |
| Hangman.Board | courses/100-days-of-code/hangman/main.py:184-192 | the board has the phrase's length |
| Hangman.BoardComplete | courses/100-days-of-code/hangman/main.py:184-192 | once every letter is guessed the board shows the whole phrase |
| Hangman.BoardHides | courses/100-days-of-code/hangman/main.py:184-192 | an unguessed letter shows as '_', and no unguessed letter is shown |
| Hangman.GuessEffect | courses/100-days-of-code/hangman/main.py:48-78 | a guess costs one life exactly when it is costly, otherwise none; guessed letters only grow |
| Hangman.GuessCorrect | courses/100-days-of-code/hangman/main.py:48-78 | a correct letter costs nothing; guessing the phrase reveals all its letters |
| Hangman.Play | courses/100-days-of-code/hangman/main.py:23-80 | the game is the run of `Guess` over exactly the inputs consumed, every one of them read while the game was unfinished; it stops at the first loss (no lives) or win (every letter guessed), else it uses every input; lives end at six minus the costly inputs |
| Hangman.RunLives | courses/100-days-of-code/hangman/main.py:39-80 | after any inputs the lives are six minus the costly ones, and only lower-case letters are ever guessed |
| Hangman.RunAlive | courses/100-days-of-code/hangman/main.py:43-80 | a game read only while unfinished never drops below zero lives |
| Hangman.UnfinishedBeforeMeaning | courses/100-days-of-code/hangman/main.py:43-53 | "unfinished before each input" means every shorter prefix of the inputs leaves the game unfinished |
| HangmanLoader.CheckPhraseValue | courses/100_days_of_code/hangman/main.py:148-166 | a value that is not a string is rejected; a string is checked as a phrase |
| HangmanLoader.LoadPhrasesBankOk | courses/100_days_of_code/hangman/main.py:346-365 | the file loads exactly when it is an object whose keys are among easy, normal and hard and whose values are lists of acceptable phrases |
| HangmanLoader.LoadEntriesList | courses/100_days_of_code/hangman/main.py:359-365 | a key is kept exactly when its list is non-empty, and it then holds exactly that list's strings |
| HangmanLoader.LoadedBankWellKept | courses/100_days_of_code/hangman/main.py:346-365 | a loaded bank has no empty list, and every phrase in it passes `check_phrase` |
| BillSplitter.GetCommand | courses/100_days_of_code/bill_splitter/main.py:69-89 | the command is the one whose aliases hold the stripped, lower-cased response, or none |
| BillSplitter.AliasesDisjoint | courses/100_days_of_code/bill_splitter/main.py:79-89 | no word answers to two commands |
| BillSplitter.GetCommandOfAlias | courses/100_days_of_code/bill_splitter/main.py:79-89 | each alias reads back as its command |
| BillSplitter.BlankIsContinue | courses/100_days_of_code/bill_splitter/main.py:82-83 | blank or whitespace-only input is CONTINUE |
| BillSplitter.GetCommandCaseInsensitive | courses/100_days_of_code/bill_splitter/main.py:79 | the answer does not depend on letter case |
| BillSplitter.CapitalizeFacts | courses/100_days_of_code/bill_splitter/main.py:165 | a capitalised word has no lower-case initial and no upper-case letter after it, equals the word up to case, and is a fixed point |
| BillSplitter.FixHyphensUnspaced | courses/100_days_of_code/bill_splitter/main.py:166-168 | the hyphen substitution removes only spaces |
| BillSplitter.FixHyphensTight | courses/100_days_of_code/bill_splitter/main.py:166-168 | after the substitution no space is next to a hyphen, and no double space is created |
| BillSplitter.FixHyphensOfTight | courses/100_days_of_code/bill_splitter/main.py:166-168 | a string with no space beside a hyphen is unchanged |
| BillSplitter.FixHyphensIdempotent | courses/100_days_of_code/bill_splitter/main.py:166-168 | applying the substitution twice is applying it once |
| BillSplitter.UpperFirst | courses/100_days_of_code/bill_splitter/main.py:174-176 | fails exactly on the empty string; otherwise only index 0 changes, and the length is kept |
| BillSplitter.UpperSegments | courses/100_days_of_code/bill_splitter/main.py:169-171 | fails exactly when a segment is empty; otherwise each segment's first character is upper-cased |
| BillSplitter.JoinUpperInitials | courses/100_days_of_code/bill_splitter/main.py:169-171 | upper-casing every segment's initial and joining them equals upper-casing every character at the start or after a hyphen |
| BillSplitter.ProcessNameResult | courses/100_days_of_code/bill_splitter/main.py:160-172 | succeeds exactly when no hyphen segment of the fixed-up name is empty, and then upper-cases the start and every character after a hyphen |
| BillSplitter.ProcessNameShape | courses/100_days_of_code/bill_splitter/main.py:160-172 | a formatted name has single spaces, none at either end and none beside a hyphen |
| BillSplitter.ProcessNameBlank | courses/100_days_of_code/bill_splitter/main.py:171-176 | a blank name raises |
| BillSplitter.ProcessNameTrailingHyphen | courses/100_days_of_code/bill_splitter/main.py:171-176 | a name ending in a hyphen raises |
| FlashCards.IsValidName | courses/100_days_of_code/flash_cards_app/model.py:130-131 | valid exactly when every character is an ASCII letter, a digit, a space, '-' or '_' |
| FlashCards.ValidNameFacts | courses/100_days_of_code/flash_cards_app/model.py:17 | the empty name is valid, and a concatenation is valid exactly when both parts are |
| FlashCards.CardScore | courses/100_days_of_code/flash_cards_app/model.py:133-149 | a card never revised scores 100 when unlearned and 0 when learned |
| FlashCards.Round | courses/100_days_of_code/flash_cards_app/model.py:148 | rounding lands within one half of the value |
| FlashCards.ReviewedToday | courses/100_days_of_code/flash_cards_app/model.py:53-55 | true exactly when the last revision is today; false for a card never revised |
| FlashCards.InsertSortedFacts | courses/100_days_of_code/flash_cards_app/model.py:178-188 | inserting into a sorted list keeps it sorted, adds exactly the new entry, and places it after every entry of the same score |
| FlashCards.ScoreCards | courses/100_days_of_code/flash_cards_app/model.py:173-176 | every card paired with its score, non-increasing by score, with equal scores in card order |
| FlashCards.ScoredCards.InsertCard | courses/100_days_of_code/flash_cards_app/model.py:178-188 | the entry goes before the first strictly smaller score; its index is returned; the list grows by one and stays sorted |
| FlashCards.CountBounds | courses/100_days_of_code/flash_cards_app/model.py:156-167 | learned-today <= reviewed-today <= card count, and learned-today <= learned <= card count |
| FlashCards.Greater | courses/100_days_of_code/flash_cards_app/model.py:158-162 | comparing with a missing date raises; otherwise it is the date order |
| FlashCards.ProjectProgress | courses/100_days_of_code/flash_cards_app/model.py:151-171 | no cards or a card never revised is an error; otherwise it gives the three counters, with the last-studied date unknown (`None`) for every input |
| FlashCards.ProjectProgressIntended | courses/100_days_of_code/flash_cards_app/model.py:151-171 | the same errors and counters, and the last-studied date is the latest revision date of the cards |
| FlashSession.FirstDue | courses/100_days_of_code/flash_cards_app/main.py:201-210 | the first due card, or none exactly when no card is due |
| FlashSession.RevisionPick | courses/100_days_of_code/flash_cards_app/main.py:201-212 | a picked card is unlearned and not the current one |
| FlashSession.RemoveFirstNamedFacts | courses/100_days_of_code/flash_cards_app/main.py:82-89 | exactly the first card of the name leaves, the others keep their order, and a list without the name is unchanged |
| FlashSession.Session.NextCard | courses/100_days_of_code/flash_cards_app/main.py:199-221 | revision mode picks the first due card or clears; quiz mode clears on an empty list, loops forever when only `actual` is present, and otherwise picks a card with another name |
| FlashSession.Session.DeleteCard | courses/100_days_of_code/flash_cards_app/main.py:82-89 | an unknown name raises before anything changes; otherwise the name leaves the dictionary, the first card of that name leaves the list, and the working card is cleared |
| InventoryResource.CategoryNames | courses/python-deepdive/inventory/models/resource.py:12-14 | the categories are the lower-case class names, and no two classes share one |
| InventoryResource.CompositionsDiffer | courses/python-deepdive/inventory/models/resource.py:2 | different classes have different compositions |
| InventoryResource.Components | courses/python-deepdive/inventory/models/resource.py:35-37 | (attribute, value) pairs in composition order |
| InventoryResource.EqDict | courses/python-deepdive/inventory/models/resource.py:83-90 | true exactly when every composition attribute is a key holding the same value |
| InventoryResource.EqualIffSameSpec | courses/python-deepdive/inventory/models/resource.py:82-98 | two resources are equal exactly when they have the same class and composition values, and the order of the operands does not matter |
| InventoryResource.EqDictMeaning | courses/python-deepdive/inventory/models/resource.py:83-90 | a dictionary is equal exactly when it holds the composition values, whatever else it holds |
| InventoryResource.Resource.constructor | courses/python-deepdive/inventory/models/resource.py:4-10 | both counters start at 0 |
| InventoryResource.Resource.SetTotal | courses/python-deepdive/inventory/models/resource.py:47-53 | a negative value or one below `allocated` raises and changes nothing; otherwise only `total` changes |
| InventoryResource.Resource.SetAllocated | courses/python-deepdive/inventory/models/resource.py:63-69 | a negative value or one above `total` raises and changes nothing; otherwise only `allocated` changes |
| InventoryResource.Resource.Claim | courses/python-deepdive/inventory/models/resource.py:109-114 | n from 0 to the free units is added to `allocated`; anything else raises and changes nothing |
| InventoryResource.Resource.Freeup | courses/python-deepdive/inventory/models/resource.py:116-121 | n from 0 to `allocated` is subtracted from `allocated`; anything else raises and changes nothing |
| InventoryResource.Resource.Remove | courses/python-deepdive/inventory/models/resource.py:123-128 | n from 0 to the free units is subtracted from `total`; anything else raises and changes nothing |
| InventoryResource.Resource.Append | courses/python-deepdive/inventory/models/resource.py:130-133 | a non-negative n is added to `total`; a negative one raises and changes nothing |
| InventoryResource.Resource.Has | courses/python-deepdive/inventory/models/resource.py:100-107 | true exactly when every named attribute exists with the given value; true for no components |
| InventoryResource.HasOwnComponents | courses/python-deepdive/inventory/models/resource.py:100-107 | `has` finds every component of a resource |
| InventoryKinds.MakeResource | courses/python-deepdive/inventory/models/resource.py:4-10 | a negative id raises; otherwise the spec holds id and manufacturer |
| InventoryKinds.MakeStorage | courses/python-deepdive/inventory/models/storage.py:7-12 | the spec holds exactly the Storage composition values |
| InventoryKinds.MakeHDD | courses/python-deepdive/inventory/models/storage.py:22-28 | the spec holds exactly the HDD composition, with the size as a string |
| InventoryKinds.MakeSSD | courses/python-deepdive/inventory/models/storage.py:42-44 | the spec holds exactly the SSD composition |
| InventoryKinds.MakeCPU | courses/python-deepdive/inventory/models/cpu.py:7-17 | the spec holds exactly the CPU composition, with the socket as a string |
| InventoryKinds.StorageErrors | courses/python-deepdive/inventory/models/storage.py:7-28 | the id check, then the capacity check, then the rpm check, each with its message; SSD adds none |
| InventoryKinds.CPUErrors | courses/python-deepdive/inventory/models/cpu.py:7-17 | the id check, then cores, then power; success exactly when all three hold |
| InventoryKinds.HDDComponents | courses/python-deepdive/inventory/models/storage.py:20 | an HDD's components are its arguments in composition order |
| InventoryStore.Appended | courses/python-deepdive/inventory/models/inventory.py:24-25 | the resource joins the end of its category, which is created if missing; other categories are unchanged |
| InventoryStore.AppendedValid | courses/python-deepdive/inventory/models/inventory.py:24-25 | appending keeps every category non-empty and of one category |
| InventoryStore.RemovedValid | courses/python-deepdive/inventory/models/inventory.py:27-38 | removal keeps that invariant, dropping a category that empties |
| InventoryStore.RemovedFacts | courses/python-deepdive/inventory/models/inventory.py:27-38 | nothing is found exactly when no resource of the category is equal; then nothing changes; otherwise one equal resource leaves and is returned, and other categories are unchanged |
| InventoryStore.RemoveAfterAppend | courses/python-deepdive/inventory/models/inventory.py:24-38 | removing what was just added finds an equal resource |
| InventoryStore.RemoveAfterAppendRestores | courses/python-deepdive/inventory/models/inventory.py:24-38 | when no equal resource was held, removal after append returns the added resource and the inventory as it was |
| InventoryStore.Matching | courses/python-deepdive/inventory/models/inventory.py:18-22 | exactly the resources that have the components are kept |
| InventoryStore.Inventory.constructor | courses/python-deepdive/inventory/models/inventory.py:8-9 | the inventory starts empty |
| InventoryStore.Inventory.Search | courses/python-deepdive/inventory/models/inventory.py:18-22 | same categories, each with its matching resources |
| InventoryStore.Inventory.SearchNothing | courses/python-deepdive/inventory/models/inventory.py:11-22 | searching for nothing lists the whole inventory |
| InventoryStore.Inventory.Append | courses/python-deepdive/inventory/models/inventory.py:24-25 | the new state is the appended inventory, which keeps the invariant |
| InventoryStore.Inventory.Remove | courses/python-deepdive/inventory/models/inventory.py:27-38 | the loop finds the first equal resource; the new state and the result are the removal's |
| FieldValidator.ValidateString | courses/python-deepdive/field-validators/validator.py:50-65 | a preprocessor failure or a non-string is a TypeError; a length out of the inclusive bounds is a ValueError; otherwise the preprocessed string passes |
| FieldValidator.ValidateNumber | courses/python-deepdive/field-validators/validator.py:74-83 | anything but an int or float is a TypeError; a value that a set bound check rejects is a ValueError; otherwise it passes unchanged |
| FieldValidator.RangeOkMeaning | courses/python-deepdive/field-validators/validator.py:77-82 | a finite value passes the bound checks exactly when it lies within the inclusive bounds; NaN passes every check; an infinity passes exactly when the bound on its side is unset |
| FieldValidator.ValidateConforms | courses/python-deepdive/field-validators/validator.py:50-83 | whatever passes conforms; without a preprocessor, a value passes exactly when it conforms, and passes unchanged |
| FieldValidator.BoundsInclusive | courses/python-deepdive/field-validators/test_validator.py:42-53 | the bounds of both validators are inclusive at both ends; a NaN float passes the number bounds and an infinity beyond a bound does not |
| FieldValidator.Descriptor.SetName | courses/python-deepdive/field-validators/validator.py:9-12 | AttributeError when the descriptor keeps no store and `'__dict__'` is not in the owner class's own namespace; otherwise the name is recorded |
| FieldValidator.Descriptor.Get | courses/python-deepdive/field-validators/validator.py:14-24 | class access gives the descriptor; instance access gives the stored value, or AttributeError when nothing is stored |
| FieldValidator.Descriptor.Set | courses/python-deepdive/field-validators/validator.py:26-31 | a rejected value changes nothing; an accepted one is stored in its validated form, in the chosen store only |
| FieldValidator.SetThenGet | courses/python-deepdive/field-validators/validator.py:14-31 | a set followed by a get reads back the validated value |
| AccountCommon.CheckName | courses/python-deepdive/account/account.py:48-53 | a blank name is a ValueError; an accepted one is non-empty |
| AccountCommon.CheckNameFacts | courses/python-deepdive/account/account.py:48-53 | a name passes exactly when it has a non-space character; the result has the same words and is a fixed point |
| AccountCommon.ParseTransaction | courses/python-deepdive/account/account.py:171-180 | a parsed code and timestamp hold no '-', and a string with fewer than four pieces does not parse |
| AccountCommon.ParseGenerated | courses/python-deepdive/account/account.py:138-143 | parsing a generated string gives back its code, number, timestamp and id when the number is not negative |
| AccountCommon.NegativeNumberUnparsable | courses/python-deepdive/account/account.py:171-180 | with a negative account number the generated string does not parse |
| AccountCommon.ClassState.NextTransactionId | courses/python-deepdive/account/account.py:55-59 | returns the current id and advances the counter by exactly 1 |
| BankAccount.ZoneOf | courses/python-deepdive/account/account.py:114-121 | no time zone means UTC; anything that is not a time zone is a TypeError |
| BankAccount.WithdrawOutcome | courses/python-deepdive/account/account.py:153-160 | a non-number is a TypeError and a negative amount a ValueError; any other amount gives a result |
| BankAccount.DepositOutcome | courses/python-deepdive/account/account.py:162-169 | the same argument checks; any other amount gives a result |
| BankAccount.WithdrawOutcomeFacts | courses/python-deepdive/account/account.py:156-160 | 'W' exactly when the funds cover the amount, which is then taken; otherwise 'X' with the balance kept; the balance never rises and never goes below zero |
| BankAccount.DepositOutcomeFacts | courses/python-deepdive/account/account.py:165-169 | a deposit is 'D' and adds exactly the amount |
| BankAccount.DepositThenWithdraw | courses/python-deepdive/account/account.py:153-169 | depositing then withdrawing the same amount restores the balance |
| BankAccount.Account.SetFirstName | courses/python-deepdive/account/account.py:94-97 | a blank name raises and changes nothing; otherwise the normalised name is stored |
| BankAccount.Account.SetLastName | courses/python-deepdive/account/account.py:102-105 | the same for the last name |
| BankAccount.Account.SetTimezone | courses/python-deepdive/account/account.py:114-121 | a TypeError keeps the zone; otherwise the zone is set, UTC for none |
| BankAccount.Account.DeleteTimezone | courses/python-deepdive/account/account.py:123-125 | the zone goes back to UTC |
| BankAccount.Account.TransactionFor | courses/python-deepdive/account/account.py:138-143 | the string carries the next id, and the counter advances by 1 |
| BankAccount.Account.Withdraw | courses/python-deepdive/account/account.py:153-160 | an argument error changes nothing; otherwise the balance becomes the outcome's, the string carries the next id, and it parses back to code, number, id and timestamp |
| BankAccount.Account.MakeDeposit | courses/python-deepdive/account/account.py:162-169 | the same for a deposit |
| BankAccount.Open | courses/python-deepdive/account/account.py:35-46 | checks the names, then a negative balance (ValueError), then the time zone (TypeError); otherwise a valid account holds the checked values |
| BankAccount.SetInterest | courses/python-deepdive/account/account.py:65-67 | a convertible rate is stored; an unconvertible one raises and keeps the rate |
| BankAccountDraft.DraftWithdrawOutcome | courses/python-deepdive/part4-oop/account.py:135-140 | a non-number is rejected ('X') with the balance kept; otherwise 'W' or 'X' |
| BankAccountDraft.DraftDepositOutcome | courses/python-deepdive/part4-oop/account.py:142-147 | a non-number is rejected ('X') with the balance kept; otherwise 'D' or 'X' |
| BankAccountDraft.DraftOutcomesKeepBalance | courses/python-deepdive/part4-oop/account.py:113-118 | the balance never goes negative; a transaction is made exactly when its result is not negative, and it then moves the balance by exactly the amount |
| BankAccountDraft.NegativeWithdrawalRaisesBalance | courses/python-deepdive/part4-oop/account.py:135-140 | with no sign check, a negative withdrawal is reported 'W' and raises the balance |
| BankAccountDraft.DraftAccount.Withdraw | courses/python-deepdive/part4-oop/account.py:135-140 | the balance becomes the outcome's, and every call yields a string with the next id |
| BankAccountDraft.DraftAccount.MakeDeposit | courses/python-deepdive/part4-oop/account.py:142-147 | the same for a deposit |
| BankAccountDraft.OpenDraft | courses/python-deepdive/part4-oop/account.py:36-47 | blank names raise; a negative balance becomes 0; no time zone means UTC |
| BankAccountDraft.SetInterestDraft | courses/python-deepdive/part4-oop/account.py:66-74 | true after storing a convertible rate; false with the rate unchanged otherwise |
| ExceptionsEnum.MembersOrdered | courses/python-deepdive/exceptions-enum/exceptions.py:3-14 | every member is listed, codes rise strictly in definition order, and no two members share a code |
| ExceptionsEnum.CodeRanges | courses/python-deepdive/exceptions-enum/exceptions.py:6-14 | ValueError members use codes 100 to 150, AttributeError members 200 to 220 |
| ExceptionsEnum.FindCode | courses/python-deepdive/exceptions-enum/exceptions.py:16-22 | a member found has the code, and none is found only when no member has it |
| ExceptionsEnum.FromValueRoundTrip | courses/python-deepdive/exceptions-enum/exceptions.py:16-22 | looking a member up by its code gives it back; only members' codes are found |
| ExceptionsEnum.Throw | courses/python-deepdive/exceptions-enum/exceptions.py:36-38 | raises the member's class with its code, the given message or else the default one, chained from the given exception |
| ExceptionsEnum.ThrowIdentifiesMember | courses/python-deepdive/exceptions-enum/test_exceptions.py:6-20 | the raised code finds the member; with no message the arguments are the code and the default message |

## Left out

- Terminal and GUI I/O: screens, prompts, menus, and the Tkinter views and controller of the flash-card app.
- File and JSON I/O: reading and writing `bank.json`, `cfg.json` and the project files. The loaders take the decoded value as a parameter.
- Randomness: `random.sample` in `draw` is a nondeterministic choice of cards present in the pile. The random choice of quiz mode is a choice among the eligible cards. The random phrase choice of hangman is not modelled.
- Floating point: the bill settlement in `split_bill`, the decay branch of `card_score` for revised cards, the progress percentage, and the monthly interest (`process_monthly_interest`). Money is integer cents, so `round(value, 2)` is not modelled.
- Dates and time zones: timestamps are opaque strings or day numbers handed in as parameters. Neither the datetime conversion in `parse_transaction_string` nor the clock is modelled.
- `play(**configs)` in blackjack (only its rule checks are modelled), and `reset_configs` writing the defaults back.
- The name setters of the earlier account draft: the same code as the later draft's.
- `Resource.__str__` and `__repr__`: text formatting.
- InventoryResource.Resource.Has: looks up only the composition attributes, `total` and `allocated`, not any other attribute `getattr` could find.
- InventoryResource.Equal: two resources of different classes compare unequal, as Python's identity fallback gives for distinct objects; comparing an object with itself is not modelled.
- InventoryStore.Inventory.Items: a map, without the tuple conversion or the insertion order of the dictionary.
- InventoryKinds.MakeStorage: arguments arrive already converted by `int(...)` or `str(...)`; a value `int()` rejects is not modelled.
- InventoryResource.Resource.SetTotal: the argument arrives already an `int`; the `int(value)` conversion is not modelled, so a float is not truncated toward zero and a string or other value that `int()` rejects is not an error path here.
- InventoryResource.Resource.SetAllocated: the argument arrives already an `int`; the `int(value)` truncation toward zero and the errors of `int()` are not modelled.
- InventoryResource.Resource.Claim: the argument arrives already an `int`; the `int(n)` truncation is not modelled, so for example `claim(-0.5)`, which claims 0 units in Python, is not covered.
- InventoryResource.Resource.Freeup: the argument arrives already an `int`; the `int(n)` truncation toward zero and the errors of `int()` are not modelled.
- InventoryResource.Resource.Remove: the argument arrives already an `int`; the `int(n)` truncation toward zero and the errors of `int()` are not modelled.
- InventoryResource.Resource.Append: the argument arrives already an `int`; the `int(n)` truncation toward zero and the errors of `int()` are not modelled.
- FieldValidator.ValidateNumber: the bounds are finite numbers; a NaN or infinite `minvalue`/`maxvalue` is not modelled (a NaN or infinite value is).
- BlackjackRound.ResolveSplits: `process_decisions` inserts into and assigns items of the caller's `hands` and `decisions` lists; the model returns the new lists instead, so aliasing of those lists with the caller is not modelled (the hands themselves are objects changed in place).
- BlackjackRound.ProcessDecisions: as for ResolveSplits, the resulting lists are returned rather than written into the caller's lists.
- FieldValidator.Descriptor.Set: the descriptor's store is an ordinary map, not a WeakKeyDictionary; garbage collection is not modelled.
- Text.Lower: case mapping covers ASCII letters only; Unicode case rules are not modelled.
- BlackjackHand.DrawPile.Draw: states which multiset of cards leaves the pile, not the order or distribution of `random.sample`.

## Findings

| source | as written | input that shows it | evidently intended | confidence | as-written member | corrected member |
|---|---|---|---|---|---|---|
| courses/100_days_of_code/blackjack/main.py:688 | the default configuration stores the split-aces switch under "split_in_aces", but `play` takes `enable_split_in_aces` | no `cfg.json` file: `load_configs` returns the defaults, and `play(**configs)` gets an unexpected keyword | the key "enable_split_in_aces", matching the parameter of `play` | high, not executed | BlackjackConfig.DefaultKeysMismatchPlay | BlackjackConfig.IntendedKeysMatchPlay |
| courses/100_days_of_code/flash_cards_app/model.py:158-162 | `card.last_revision > last_studied` compares a date with the initial `None`, which raises TypeError; the handler swallows it, so `last_studied` is never set | any project whose cards all have a revision date: the result's `last_studied` is `None` | start the running maximum from the first card (`last_studied is None or card.last_revision > last_studied`), reporting the latest revision date | high, not executed | FlashCards.ProjectProgress | FlashCards.ProjectProgressIntended |
