# Casino bank, blackjack table and chat relay, in Dafny

This project models the core of a set of Discord bot cogs and proves properties of the model:

- **`Bank`** (casinobank/casinobank.py) is a ledger of credit accounts, keyed by server and user.
  - Accounts can be created, deposited to, withdrawn from, set, transferred between and wiped per server.
  - Lookups raise `NoAccount`; every error the source raises is an explicit `Failure`.
- **`Economy`** (the same file) covers:
  - the payday rule;
  - the server and global leaderboards (rank by balance, deduplicate by user, cut to the top places);
  - `already_in_list`;
  - `display_time`.
- **`Blackjack`** (blackjack/blackjack.py) is a single table driven by commands and a game loop:
  - the commands are `start`, `stop`, `bet`, `hit`, `stand`, `double` and `split`;
  - the loop goes through pregame, the deal, the timed game phase and the dealer's turn;
  - `count_hand` has an ace-demotion rule;
  - the deck is built in `__init__`, and the settlement pays each hand into the bank.
- **`AvaChat`** (AvaChat/avachat.py) is the message listener. It:
  - logs every message that does not start with '.';
  - turns the author's log into a role-tagged prompt (`format_conversation`);
  - logs and sends the language model's reply unless "skip" is one of its words.

The commands that change state are methods of the classes whose fields the source mutates:
- `CasinoBank.Bank` holds the account table and the legacy balances.
- `CasinoBank.Economy` holds the payday register.
- `Blackjack.Table` holds the phase, the timer, the seated players and the dealer's hand.
- `AvaChat.ChatRelay` holds the chat logs.

Each method is proved against a pure specification function, and the lemmas beside it prove what the source promises about that function:
- The bank's functions live in `Ledger`.
- The player commands live in `Rules` and the counting in `Cards`.
- The payouts live in `Settlement`.

The loops of the source are `while`/`for` loops with invariants:
- `count_hand`, the deck build and `already_in_list`;
- the global deduplication and the `display_time` loop;
- the all-stood check and the balance report;
- the payout loops and the account listings.

Files and modules:
- `wrappers.dfy` (`Wrappers`): `Option`, `Result` and `Outcome`.
- `ledger.dfy` (`Ledger`): the account table as values, the bank's errors and one function per bank operation. The bank's total balance is a ghost function.
- `bank.dfy` (`CasinoBank`): classes `Bank` and `Economy`.
- `leaderboard.dfy` (`Leaderboard`): ranking, cutting and deduplication.
- `time_format.dfy` (`TimeFormat`): `display_time`.
- `cards.dfy` (`Cards`): cards, the deck, hands, players and counting.
- `rules.dfy` (`Rules`): `draw_card`, `hit`, `stand`, `double`, `split` and the deal, on one player.
- `settlement.dfy` (`Settlement`): the dealer's outcome, the payout table and the deposit loops as functions.
- `table.dfy` (`Blackjack`): class `Table` and the loops that settle the table against a `Bank`.
- `avachat.dfy` (`AvaChat`): prompt formatting, the skip-word test and class `ChatRelay`.

Modelling choices:
- **Balances** are `real`, so the 2.5× payout of a natural is exact.
- **Accounts** form one map from `AccountKey(server, user)` to the record. An empty server map and a missing one behave the same under every modelled operation.
- **Seated players** are a sequence of seats in the order of each player's first bet, which is the dict's insertion order. The dealer, whom the source keeps in the same dict, is a separate `dealer` field.
- **Seat keys.** The dict is keyed by members, which compare by user id alone. One table serves every server, so a seat is found by user id (`Find`), and it keeps the account key of the first bet that took it. Payouts go to that account. A repeat bet, or a `double` sent from another server, charges the sender's own account on that server (blackjack/blackjack.py:100-103, :212-213).
- **Drawn cards** are `Draw(suit, number)` parameters in place of `randint`.
- **Clock readings** are parameters.
- **The game loop** is cut into the atomic steps `Start` (with the first round's reset), `NewRound`, `CloseBetting`, `Deal`, `Tick` and `DealerTurn`. Only the betting wait (blackjack/blackjack.py:307) and the game phase's one-second wait (:368) fall between steps. The loop's other waits lie inside a step, and the model treats each step as a whole; "## Left out" lists them under Concurrency.
- **The language model's reply** is a parameter of `OnMessage`.

Behaviours of the code that the model keeps as written:
- **Repeat bet.** A repeat bet deposits and then withdraws the *new* amount. The balance does not change, and the hand is reset to the new bet (blackjack/blackjack.py:100-113).
- **Ace demotion.** `count_hand` demotes at most one ace per call; it does not repeat the demotion while the count is over 21 (blackjack/blackjack.py:512-522).
- **Naturals.** A natural needs an ace and a jack, queen or king among the ranks, so ace and ten is not one. The rank list is read before the count (blackjack/blackjack.py:322-330).
- **Double at 21.** After `double`, a hand that counts exactly 21 stays open (blackjack/blackjack.py:218-234), although the command's docstring promises "one last card" (blackjack/blackjack.py:203).
- **Dealer's deal.** The dealer gets one card at the deal and draws one card per step of the endgame. A dealer blackjack is checked after every such draw, on exactly two ranks (blackjack/blackjack.py:343-380).
- **Split.** `split` takes no stake (blackjack/blackjack.py:267-279).
- **Split by value.** `split` compares the two cards' values, not their ranks (blackjack/blackjack.py:266), so a ten and a king can be split; its docstring says "same rank" (blackjack/blackjack.py:254).
- **`hit` outside a game.** `hit` draws the card and counts the hand even when it is refused (blackjack/blackjack.py:136-139).
- **Dealer blackjack.** Against a dealer blackjack, only the hands flagged blackjack are refunded; no hand is recounted (blackjack/blackjack.py:394-412).

## Model

| member | source | states |
|---|---|---|
| Ledger.Lookup | casinobank/casinobank.py:179-184 | the record is found exactly when the account exists; otherwise `NoAccount` |
| Ledger.Create | casinobank/casinobank.py:47-65 | fails with `AccountAlreadyExists` exactly when the account exists; otherwise adds only that account, whose balance is the legacy balance if the user has one, else the initial balance |
| Ledger.Withdraw | casinobank/casinobank.py:74-86 | `NegativeValue`, then `NoAccount`, then `InsufficientBalance`, in that order; succeeds iff the amount is non-negative and covered; only the holder's balance drops, by the amount; balances stay non-negative |
| Ledger.Deposit | casinobank/casinobank.py:88-95 | `NegativeValue`, then `NoAccount`; succeeds iff the amount is non-negative and the account exists; only the holder's balance grows, by the amount |
| Ledger.SetCredits | casinobank/casinobank.py:97-104 | the same two errors; on success only the holder's balance changes, to the amount |
| Ledger.Transfer | casinobank/casinobank.py:106-118 | errors in the source's order (sign, same party, missing account, funds); on success the sender loses and the receiver gains the amount, every other account and the key set unchanged |
| Ledger.CreateTotal | casinobank/casinobank.py:47-65 | a new account adds exactly its opening balance to the bank's total |
| Ledger.WithdrawTotal | casinobank/casinobank.py:74-86 | a withdrawal takes exactly its amount out of the bank's total |
| Ledger.DepositTotal | casinobank/casinobank.py:88-95 | a deposit adds exactly its amount to the bank's total |
| Ledger.SetCreditsTotal | casinobank/casinobank.py:97-104 | setting a balance changes the total by the difference |
| Ledger.TransferKeepsTotal | casinobank/casinobank.py:106-118 | a transfer leaves the bank's total unchanged |
| Ledger.Wipe | casinobank/casinobank.py:127-129 | exactly the accounts of other servers remain, unchanged |
| Ledger.CanSpend | casinobank/casinobank.py:120-125 | `NoAccount` for a missing account; otherwise true iff the balance covers the amount |
| Ledger.DepositThenWithdraw | blackjack/blackjack.py:100-103 | the repeat-bet refund and re-charge of the same amount always succeeds and restores the table exactly |
| CasinoBank.Bank.constructor | casinobank/casinobank.py:43-45 | the bank starts with the loaded table |
| CasinoBank.Bank.GetAccount | casinobank/casinobank.py:179-184 | the stored record, or `NoAccount` exactly for a missing account |
| CasinoBank.Bank.AccountExists | casinobank/casinobank.py:67-72 | true exactly when the account is in the table |
| CasinoBank.Bank.GetBalance | casinobank/casinobank.py:158-160 | the stored balance, or `NoAccount` |
| CasinoBank.Bank.CanSpend | casinobank/casinobank.py:120-125 | `NoAccount` for a missing account; otherwise whether the balance covers the amount |
| CasinoBank.Bank.CreateAccount | casinobank/casinobank.py:47-65 | the new table is `Ledger.Create`'s, or unchanged with its error; the new record is returned; balances stay non-negative |
| CasinoBank.Bank.WithdrawCredits | casinobank/casinobank.py:74-86 | the result and the new table are `Ledger.Withdraw`'s; a failure changes nothing |
| CasinoBank.Bank.DepositCredits | casinobank/casinobank.py:88-95 | the result and the new table are `Ledger.Deposit`'s |
| CasinoBank.Bank.SetCredits | casinobank/casinobank.py:97-104 | the result and the new table are `Ledger.SetCredits`' |
| CasinoBank.Bank.TransferCredits | casinobank/casinobank.py:106-118 | the result and the new table are `Ledger.Transfer`'s, made of a withdrawal and a deposit |
| CasinoBank.Bank.WipeBank | casinobank/casinobank.py:127-129 | the table becomes `Ledger.Wipe`'s |
| CasinoBank.Bank.GetServerAccounts | casinobank/casinobank.py:131-142 | one row per account of the server, each matching the stored record, none twice, none missing |
| CasinoBank.Bank.GetAllAccounts | casinobank/casinobank.py:144-156 | one row per account of every server the bot is still on, each matching its record, none twice, none missing |
| CasinoBank.Economy.constructor | casinobank/casinobank.py:191-200 | settings default per server; the payday register starts empty |
| CasinoBank.Economy.Payday | casinobank/casinobank.py:323-342 | no account: nothing changes; a first claim records the time and deposits; a later one deposits and re-records only after `PAYDAY_TIME`, otherwise reports the time left; the bank's invariant is kept |
| Leaderboard.SortByBalance | casinobank/casinobank.py:358-359 | the result is ranked by balance, highest first, and is a permutation of the input |
| Leaderboard.ClampTop | casinobank/casinobank.py:356-361 | `top < 1` means 10, and the count never exceeds the number of rows |
| Leaderboard.Top | casinobank/casinobank.py:356-362 | a prefix of the ranked rows whose length is the clamped `top` |
| Leaderboard.ServerLeaderboard | casinobank/casinobank.py:352-362 | the server board has exactly the clamped number of places and is ranked by balance, best first |
| Leaderboard.ServerLeaderboardIsTop | casinobank/casinobank.py:352-362 | the server board has the clamped size, is ranked, is drawn from the server's rows, and no row left off is richer than one on it |
| Leaderboard.AlreadyInList | casinobank/casinobank.py:410-414 | true exactly when some listed row has the user's id |
| Leaderboard.FirstPerUser | casinobank/casinobank.py:386-391 | the deduplicated list is never longer than its input and is empty only when there are no rows |
| Leaderboard.FirstPerUserDistinct | casinobank/casinobank.py:388-391 | the deduplicated list names each user at most once |
| Leaderboard.FirstPerUserCovers | casinobank/casinobank.py:388-391 | every user of the input is named in the deduplicated list |
| Leaderboard.FirstPerUserFirsts | casinobank/casinobank.py:388-391 | every kept row is its user's first row in the input |
| Leaderboard.FirstPerUserSorted | casinobank/casinobank.py:388-391 | deduplicating a ranked list leaves it ranked |
| Leaderboard.FirstPerUserKeepsRichest | casinobank/casinobank.py:386-391 | on a ranked input each kept row carries its user's highest balance |
| Leaderboard.GlobalLeaderboard | casinobank/casinobank.py:381-394 | the loop's board is the ranked, deduplicated rows cut to the clamped size |
| Leaderboard.GlobalRankedAndDistinct | casinobank/casinobank.py:386-394 | the global board is ranked and names each user at most once |
| Leaderboard.GlobalRichest | casinobank/casinobank.py:386-394 | every row on the global board is an input row and its user's richest |
| Leaderboard.GlobalCovers | casinobank/casinobank.py:388-394 | when `top` leaves room, every user of the input is on the global board |
| Leaderboard.GlobalLeaderboardSpec | casinobank/casinobank.py:381-394 | all of the global board's properties together |
| TimeFormat.RStrip | casinobank/casinobank.py:463 | the result is a prefix with no trailing 's', and only 's' characters were removed |
| TimeFormat.PyPrefix | casinobank/casinobank.py:465 | Python slicing `s[:n]`: clipped for large `n`, counted from the end for negative `n` |
| TimeFormat.CollectParts | casinobank/casinobank.py:456-464 | the loop's lines are exactly the rendered nonzero parts |
| TimeFormat.Display | casinobank/casinobank.py:447-465 | zero seconds, or a granularity of zero, renders as the empty string |
| TimeFormat.DisplayTime | casinobank/casinobank.py:447-465 | the text is the first `granularity` rendered parts joined by ", " |
| TimeFormat.Parts | casinobank/casinobank.py:447-464 | at most one part per unit, and no part at all for zero seconds |
| TimeFormat.PartsAddUp | casinobank/casinobank.py:458-464 | read back, the parts add up to the given seconds |
| TimeFormat.PartsNonzero | casinobank/casinobank.py:460-464 | every printed amount is nonzero and of a listed unit |
| TimeFormat.PartsLargestFirst | casinobank/casinobank.py:448-464 | larger units come first |
| TimeFormat.PartsBounded | casinobank/casinobank.py:458-461 | for non-negative seconds each amount is positive and worth at most the seconds |
| TimeFormat.IntervalsDescending | casinobank/casinobank.py:448-454 | the unit table runs from weeks down to one second |
| TimeFormat.SingularNames | casinobank/casinobank.py:462-463 | an amount of 1 prints week, day, hour, minute, second |
| TimeFormat.DisplayKeepsLeadingParts | casinobank/casinobank.py:465 | only the leading parts are shown, as many as `granularity` allows |
| TimeFormat.DisplayExample | casinobank/casinobank.py:447-465 | 90061 seconds reads "1 day, 1 hour" |
| Cards.EntryValues | blackjack/blackjack.py:33-54 | ranks 2 to 10 are worth their number, an ace 11, and jack, queen and king 10 |
| Cards.BuildDeck | blackjack/blackjack.py:31-54 | every suit maps numbers 1 to 13, and only those, to their entries |
| Cards.FreshPlayer | blackjack/blackjack.py:105-113 | a seated bettor has one empty hand holding the bet, hand index 0, flags clear |
| Cards.RanksOf | blackjack/blackjack.py:519-521 | the rank list has one rank per card, in card order |
| Cards.FirstEleven | blackjack/blackjack.py:512-514 | the first card valued 11, or none such |
| Cards.Counted | blackjack/blackjack.py:505-523 | the count is the sum of the resulting cards; over 21 with an 11, exactly the first 11 becomes a small ace and the count drops by 10, otherwise nothing changes |
| Cards.CountedChangesAtMostOne | blackjack/blackjack.py:512-522 | at most one card changes, and only an 11 into a small ace |
| Cards.CountedIdempotentBelow22 | blackjack/blackjack.py:505-523 | a hand that counts 21 or less is unchanged by another count |
| Cards.CountHand | blackjack/blackjack.py:505-523 | the loops compute exactly `Counted` |
| Cards.Appended | blackjack/blackjack.py:488-495 | exactly one card is added at the end, with its rank, and the sum grows by its value |
| Cards.Drawn | blackjack/blackjack.py:473-497 | `draw_card` on one hand: one card more, placed last with the drawn suit; stake and flags kept |
| Cards.DrawnKeepsCards | blackjack/blackjack.py:473-497 | a draw that leaves the hand at 21 or less keeps every card exactly as drawn, the new one last |
| Cards.CardOf | blackjack/blackjack.py:486-494 | the card carries the deck's rank and value for its number |
| Cards.NaturalExamples | blackjack/blackjack.py:326 | ace with king, and queen with ace, are naturals; ace with ten, and a small ace with king, are not |
| Rules.DrawFor | blackjack/blackjack.py:488-497 | the card goes to the hand in play, which is then counted; other hands and the index stay |
| Rules.CloseHand | blackjack/blackjack.py:143-150 | the hand is marked standing and the index advances only if a later hand exists |
| Rules.Hit | blackjack/blackjack.py:136-150 | the player stays well formed, with the same stakes |
| Rules.HitSpec | blackjack/blackjack.py:136-150 | exactly one card is added; in a game on an open hand a count over 21 closes it and advances only to an existing hand; otherwise no flag or index changes |
| Rules.Stand | blackjack/blackjack.py:177-188 | the player stays well formed, with the same stakes |
| Rules.StandSpec | blackjack/blackjack.py:177-188 | in a game on an open hand the counted hand closes and play advances only to an existing hand; otherwise nothing changes |
| Rules.DoubleBet | blackjack/blackjack.py:212 | only the hand in play's bet changes, to twice its value |
| Rules.DoubleDraw | blackjack/blackjack.py:215-234 | the player stays well formed, with the same stakes |
| Rules.DoubleSpec | blackjack/blackjack.py:212-234 | the bet doubles and exactly one card is added; the hand closes unless it counts 21, advancing only to an existing hand; other hands unchanged |
| Rules.ResetAces | blackjack/blackjack.py:260-265 | only the first two cards can change |
| Rules.ResetAcesSpec | blackjack/blackjack.py:260-265 | an 11/1 ace pair becomes two aces worth 11, equal in value; any other pair is left alone |
| Rules.SplitHand | blackjack/blackjack.py:257-294 | the player stays well formed with the same hand index, and stakes stay non-negative |
| Rules.SplitSpec | blackjack/blackjack.py:257-294 | a split occurs only for exactly two equal-valued cards on an open hand in a game; it appends one hand at index `len(hands)` holding the second card with the same bet and flags clear, and the first hand keeps one card; a refusal keeps the ace reset; a hand with fewer than two cards is untouched |
| Rules.DealTo | blackjack/blackjack.py:319-330 | the player stays well formed with the same index and stakes |
| Rules.DealToSpec | blackjack/blackjack.py:319-330 | exactly two cards are added; the hand is marked blackjack and standing exactly when its ranks make a natural |
| Rules.FreshDealNatural | blackjack/blackjack.py:319-330 | a freshly seated player is dealt a blackjack, and stands, exactly when the two cards are an ace and a face card |
| Settlement.DealerResult | blackjack/blackjack.py:376-440 | dealer blackjack iff a natural in two ranks; bust iff otherwise over 21; stands at 17 to 21; below 17 draws again |
| Settlement.Payout | blackjack/blackjack.py:394-459 | against a dealer blackjack exactly the naturals are paid; otherwise a natural gets 2.5 times its stake and a busted ordinary hand gets nothing; any deposit returns at least the stake |
| Settlement.Scored | blackjack/blackjack.py:394-445 | the count paid on is the sum of the scored hand's cards, with stake and flags kept; against a dealer blackjack the hand is not recounted |
| Settlement.PayoutIsShowdown | blackjack/blackjack.py:394-459 | the payout table is the usual showdown: a natural wins 2.5×, or gets its stake back against a dealer natural; a live hand above the dealer wins 2×, an equal one pushes, the rest lose |
| Settlement.PayoutExamples | blackjack/blackjack.py:394-459 | worked payouts for a stake of 100 |
| Settlement.SettleHands | blackjack/blackjack.py:398-459 | one player's hands in order, each scored and paid by `Payout`, a failed deposit stopping the loop; as many hands come out as go in |
| Settlement.SettleHandsKeeps | blackjack/blackjack.py:421-459 | money moves only into the player's account, by exactly the reported amount; stakes and flags are kept |
| Settlement.SettleHandsMoney | blackjack/blackjack.py:421-459 | the bank total grows by exactly the amount paid out, and no other account changes |
| Settlement.SettleHandsStakes | blackjack/blackjack.py:421-459 | settling keeps every hand's bet, blackjack flag and standing flag |
| Settlement.SettleHandsSafe | blackjack/blackjack.py:398-459 | with non-negative stakes nothing is taken, balances stay non-negative, and a deposit fails only for a missing account |
| Settlement.SettleTable | blackjack/blackjack.py:398-459 | every seat in seat order settled by `SettleHands`, a failed deposit stopping the loop; as many seats come out as go in |
| Settlement.SettleTableKeeps | blackjack/blackjack.py:398-461 | every seat keeps its key, hand index and stakes; the key set is kept; the bank's total grows by exactly the amount paid |
| Settlement.SettleTableSafe | blackjack/blackjack.py:398-461 | with non-negative stakes the settlement only adds money, keeps balances non-negative, and cannot fail while every seat has an account |
| Settlement.FirstMissing | blackjack/blackjack.py:464-470 | the first seat without an account, or none exactly when all have one |
| Blackjack.CardFor | blackjack/blackjack.py:486-494 | the deck lookup gives the standard card for the draw |
| Blackjack.Find | blackjack/blackjack.py:96 | finds a seat exactly when one belongs to the user id, whichever server its account is on, as the member-keyed dict does |
| Blackjack.DealtSeated | blackjack/blackjack.py:317-341 | the deal keeps seats distinct and well formed |
| Blackjack.Table.constructor | blackjack/blackjack.py:21-54 | a standard deck, no game, no players, timer 0 |
| Blackjack.Table.Start | blackjack/blackjack.py:64-70 | only from no game: pregame with the loop running and its first reset done (no players, timer 0, bets open); otherwise refused and unchanged |
| Blackjack.Table.Stop | blackjack/blackjack.py:74-81 | any game is switched off without refunds; with none, refused |
| Blackjack.Table.NewRound | blackjack/blackjack.py:303-307 | the pregame reset clears the seats and the timer |
| Blackjack.Table.CloseBetting | blackjack/blackjack.py:309-314 | no bets end the game; otherwise the deal begins |
| Blackjack.Table.Bet | blackjack/blackjack.py:85-125 | placed iff affordable, in pregame and in range; a first bet withdraws it and takes a new seat at the end; a repeat by the same user id, from any server, leaves the balance, the seat's place and its key unchanged; either way the seat restarts with the new bet; every refusal changes nothing; the bank's invariant is kept |
| Blackjack.Table.Hit | blackjack/blackjack.py:132-165 | the seat becomes `Rules.Hit` of it; the reply names the refusal |
| Blackjack.Table.Stand | blackjack/blackjack.py:174-194 | the seat becomes `Rules.Stand` of it; the reply names the refusal |
| Blackjack.Table.Double | blackjack/blackjack.py:202-246 | the seat is found by user id; only in a game, on an open hand the sender's account can afford: the bet doubles, the old bet is withdrawn from the sender's account and one card drawn; otherwise nothing changes and the reply says why |
| Blackjack.Table.DoubleOpen | blackjack/blackjack.py:208-237 | the withdrawal from the sender's account decides whether the card is drawn; the bank is exactly `Ledger.Withdraw`'s; the seat keeps its key |
| Blackjack.Table.Split | blackjack/blackjack.py:253-294 | the seat becomes `Rules.SplitHand` of it; no money moves |
| Blackjack.Table.Deal | blackjack/blackjack.py:316-357 | every seat is dealt two cards in seat order, the dealer one, and the game begins |
| Blackjack.DealSeats | blackjack/blackjack.py:317-341 | every seat, in seat order, receives its two drawn cards; keys and stakes are kept and every seat stays well formed |
| Blackjack.Table.AllStood | blackjack/blackjack.py:360-364 | true exactly when every hand of every seat stands |
| Blackjack.Table.Tick | blackjack/blackjack.py:359-370 | the timer counts up until everyone stands or time is up, then the endgame begins |
| Blackjack.Table.SettleBets | blackjack/blackjack.py:394-461 | the bank and the seats become `Settlement.SettleTable`'s |
| Blackjack.Table.DealerTurn | blackjack/blackjack.py:372-440 | the dealer draws one card; without an outcome the endgame continues, otherwise the round is finished |
| Blackjack.Table.FinishRound | blackjack/blackjack.py:394-470 | the bets are settled and the table returns to pregame; a raising deposit or balance lookup ends the game loop |
| Blackjack.Table.ReportBalances | blackjack/blackjack.py:464-470 | reports a missing account exactly when some seat has none |
| Blackjack.SettleSeats | blackjack/blackjack.py:443-459 | the loop over the seats computes exactly `Settlement.SettleTable` |
| Blackjack.SettleSeat | blackjack/blackjack.py:444-459 | one seat's payouts, with the key kept |
| Blackjack.SettlePlayer | blackjack/blackjack.py:445-459 | the loop over one player's hands computes exactly `Settlement.SettleHands` |
| Blackjack.SettleNext | blackjack/blackjack.py:445-459 | one turn of the hand loop: settling the next hand keeps the loop's result, `Settlement.SettleHands` of the starting accounts, now resumed after that hand |
| Blackjack.SettleHand | blackjack/blackjack.py:445-459 | one hand is counted (except against a dealer blackjack) and its payout deposited; the new bank state, amount and error are those of the ledger's deposit |
| AvaChat.MessageOf | AvaChat/avachat.py:127-130 | the prompt entry carries the log entry's content; its role is assistant exactly when the entry's name is the bot's, otherwise user, never system |
| AvaChat.History | AvaChat/avachat.py:125-130 | one message per log entry, in order: "assistant" when the name is the bot's, else "user" |
| AvaChat.FormatConversation | AvaChat/avachat.py:117-135 | for a logged author: the system message, the log in order, then the current message as the user's, so length is log + 2; otherwise the lookup fails |
| AvaChat.Logged | AvaChat/avachat.py:65-72 | exactly one entry is appended to the author's list, which is created if absent; every other list is unchanged |
| AvaChat.PromptEndsWithMessage | AvaChat/avachat.py:65-78 | the prompt built after logging ends with the message twice: as the newest log entry and as the current message |
| AvaChat.PunctuationRanges | AvaChat/avachat.py:99 | the punctuation test accepts exactly the 32 characters of `string.punctuation` |
| AvaChat.StripPunctuation | AvaChat/avachat.py:99 | no punctuation is left, and only characters of the input |
| AvaChat.StripPunctuationAppend | AvaChat/avachat.py:99 | removal works piecewise over concatenation |
| AvaChat.StripPunctuationKeeps | AvaChat/avachat.py:99 | text without punctuation is unchanged |
| AvaChat.LowerChar | AvaChat/avachat.py:99 | capital ASCII letters shift to lower case; every other character stays |
| AvaChat.Lower | AvaChat/avachat.py:99 | per-character lower-casing, length kept |
| AvaChat.Words | AvaChat/avachat.py:102 | every word is non-empty and has no whitespace, and together the words are exactly the text's non-whitespace characters |
| AvaChat.WordsOfJoin | AvaChat/avachat.py:102 | splitting words joined by single spaces gives the words back |
| AvaChat.HasSkip | AvaChat/avachat.py:97-104 | "skip" is a word of the reply once punctuation is removed and case folded; a reply shorter than four characters never counts |
| AvaChat.SkipIsWholeWord | AvaChat/avachat.py:99-104 | a one-word reply without punctuation and capitals says skip exactly when it is "skip" |
| AvaChat.SkipExample | AvaChat/avachat.py:99-104 | "Skip." counts as skip |
| AvaChat.ChatRelay.constructor | AvaChat/avachat.py:23-24 | the relay starts with the bot's identity and the content of the stored chat-log file |
| AvaChat.ChatRelay.OnMessage | AvaChat/avachat.py:46-113 | a '.' message changes nothing; any other is logged and the prompt built; a bot message, or a reply that is missing or says skip, gets no reply; otherwise the reply is logged under the bot's name and sent |

## Left out

- Discord messaging, embeds, card images (PIL and Imgur): presentation and foreign I/O. The stale `count` in the loss message (blackjack/blackjack.py:409) affects text only.
- The JSON files (`dataIO.load_json`/`save_json`, the chat-log file), modelled as in-memory fields: persistence I/O.
- The OpenAI call, modelled as the `reply` parameter: a foreign service.
- `print` calls: console output only.
- Timestamps: `datetime` in `create_account` and `_create_account_obj` is not modelled, and the chat-log timestamp is a parameter string.
- `get_member` lookups and the bot's server lookup in `get_all_accounts` (a `liveServers` set here): framework calls.
- The activity-log reader (casinobank/casinobank.py:305-321), check_folders/check_files/setup, and the settings commands (casinobank/casinobank.py:416-445, blackjack/blackjack.py:577-646): log reading, framework and settings code. A table's settings are fixed values and the defaults are those `check_files` writes.
- Randomness: `randint` in `draw_card` is the `Draw` parameter.
- Sleeps and `time.perf_counter`: the payday clock is a parameter. Where each of the game loop's waits falls is under Concurrency.
- Concurrency: each command and each loop step is one atomic step. A command that lands at a wait inside a step is not modelled:
  - A command during the one-second pause after each seat's deal (blackjack/blackjack.py:341) meets a partly dealt table in state "drawing".
  - A `stop` during the pause between the dealer's draw and the settlement (:392) is undone by the source. The settlement still pays and then sets the state back to "pregame" (:415, :437, :461), so the loop carries on into a new round.
  - A command during the pauses after the settlement (:416, :438, :462) comes before the balance report. A bet placed there is accepted in pregame and wiped by the next round's reset, as `Bet` followed by `NewRound` does here.
  - The other `await`s of the loop and the commands (message sends) are yield points inside steps too.
- Blackjack.Table.Stop: the `admin_or_permissions(manage_server=True)` check (blackjack/blackjack.py:73) is a framework permission check and is not modelled, so any caller may stop the game.
- The text of the leaderboards (`ljust` layout, the 1985-character limit) and of `show_hand`: presentation.
- The fallback of the old settings format in `Economy.__init__` is only the `defaults` value.
- Floating point: balances are exact reals, so the model does not capture any float rounding of the 2.5× payout.
- CasinoBank.Bank.GetServerAccounts and CasinoBank.Bank.GetAllAccounts: do not fix the order of rows, because the source follows the file's key order, which the map does not model.
- Leaderboard.SortByBalance: the order of rows with equal balances follows the model's insertion rule, and no lemma states stability.
- The in-place mutation of a player's dict is modelled on `Player` values, with the seat replaced. No other code holds a reference to those dicts.
- Identity tests `sender is receiver` and `message.author == self.bot.user` are key and id equality.
- AvaChat.Lower and AvaChat.IsSpace: cover ASCII only. Python's `lower()` and `split()` also act on non-ASCII letters and spaces.
- The `mycom` command of AvaChat: a placeholder reply, not modelled.
