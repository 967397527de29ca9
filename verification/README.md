# Blef: a verified model of the card-game core

Blef is a bluffing card game played with 24 cards: six values (9, 10, J, Q,
K, A, written 0..5) in four colours. Each player holds a few cards. In turn,
players claim that some set (a pair of kings, a small straight, a flush in
hearts, and so on) can be made from all the cards on the table together. Each
claim must be higher than the last. Instead of raising, a player may check.
Then the cards are shown: whoever was wrong (the claimant, if the set is
absent, otherwise the checker) takes one more card next round. A player
pushed beyond the card limit is out, and the last player holding cards wins.

This project models three parts of the repository's core in Dafny and proves
their properties.

1. **The table of base probabilities** (`shared/probabilities/probability_table.py`).
   For n own cards and o cards held by the others, each of the 35 columns is
   a count of o-card draws from the 24 - n unseen cards, divided by
   C(24 - n, o).
   - Numerators and denominators are kept as exact natural numbers, and scipy's
     NaN is `None`.
   - Every defined probability is proved to lie in [0, 1], via Vandermonde's
     identity.
   - The table is proved to have 198 rows with injective, increasing
     `100 * n + o` keys.
   - The NaN cells are exactly the two straight columns named below.
   - Modules: `Combinatorics`, `ProbabilityTable`.
2. **The local game engine** (`shared/api/simpleschema_local_manager.py`).
   - The 88-bet catalogue and the judgement of whether a bet is present among
     the cards.
   - Dealing from a shuffled deck.
   - Seating AIs evenly round the table.
   - Lookup of players and of the next active player.
   - Game creation.
   - The round state machine `play` / `handle_check`. This updates the game
     record in place and is modelled by the class `LocalGame.Game`. Its
     methods are proved against the step functions `PlayStep` and
     `CheckStep`, and module `GameRules` proves the rules of the game about
     those functions: who loses, how counts change, elimination, the end of
     the game, whose turn it is, and a consistency invariant that every
     completed move keeps.
   - Modules: `Cards`, `Indexation`, `Players`, `Dealing`, `Seating`,
     `LocalGame`, `GameRules`, `GameCreation`.
3. **The conservative AI** (`conservative_crawling_ai/agent.py`).
   - `normalise`, `elementwise_mul`, `compute_sampling_weights`.
   - `determine_action`, over real numbers.
   - `random.choices` is modelled exactly as CPython computes it.
   - The legality property is proved: a raise is always above the last claim.
   - Module: `ConservativeAgent`.

Randomness enters as parameters:
- `random.sample` becomes a prefix of a shuffled deck.
- `shuffle` becomes a permutation of the humans.
- `choice` becomes an offset.
- `random()` becomes a number in [0, 1).
- The game uuid is a parameter.

## Model

| member | source | states |
|---|---|---|
| Cards.DeckIsEveryCardOnce | shared/api/simpleschema_local_manager.py:180 | product(range(6), range(4)) lists each of the 24 cards of the game exactly once |
| Cards.Deck | shared/api/simpleschema_local_manager.py:180 | product(range(6), range(4)) has 24 entries, each a card of the game (value 0..5, colour 0..3) |
| Indexation.Catalog | shared/api/simpleschema_local_manager.py:11-117 | INDEXATION has 88 rows; row i carries action id i; every row has the details its set type needs; two pairs name the higher pair first; a full house names two different values |
| Indexation.CatalogAt | shared/api/simpleschema_local_manager.py:11-99 | the row at each position, segment by segment of the catalogue (high cards 0-5, pairs 6-11, … great flushes 84-87) |
| Indexation.TwoPairsAt | shared/api/simpleschema_local_manager.py:24-38 | two pairs (d1, d2) with d2 < d1 sit at action id 12 + d1(d1-1)/2 + d2 |
| Indexation.FullHouseAt | shared/api/simpleschema_local_manager.py:48-77 | a full house (d1, d2) with d1 != d2 sits at action id 36 + 5 d1 + d2, less one when d2 > d1 |
| Indexation.LookUp | shared/api/simpleschema_local_manager.py:129-130 | INDEXATION[action_id] with Python indexing: a row exactly for -88..87 (IndexError otherwise), the row whose action id is the id mod 88, well formed |
| Indexation.SetExists | shared/api/simpleschema_local_manager.py:127-176 | determine_set_existence raises IndexError exactly for ids outside -88..87 |
| Indexation.ShapeHolds | shared/api/simpleschema_local_manager.py:137-171 | a set can be present only among at least as many cards as it needs (a pair 2, a full house 5, a great straight 6, ...) |
| Indexation.NothingInEmptyHand | shared/api/simpleschema_local_manager.py:137-173 | no bet is present among no cards |
| Indexation.MoreCardsKeepSet | shared/api/simpleschema_local_manager.py:137-171 | a bet present among some cards stays present among any cards that contain them (as a multiset) |
| Indexation.PooledCardsKeepSet | shared/api/simpleschema_local_manager.py:249-250 | a bet present in one hand is present in the pooled cards of the table, whichever hands join before or after it |
| Indexation.KindsNest | shared/api/simpleschema_local_manager.py:137-156 | four of a kind d implies three of a kind d, which implies a pair of d, which implies high card d |
| Indexation.FullHouseHasParts | shared/api/simpleschema_local_manager.py:149-152 | a full house (d1, d2) implies three of a kind d1 and a pair of d2 |
| Indexation.TwoPairsHasParts | shared/api/simpleschema_local_manager.py:139-142 | two pairs (d1, d2) imply a pair of d1 and a pair of d2 |
| Indexation.GreatStraightHasBoth | shared/api/simpleschema_local_manager.py:143-148 | the great straight implies the small and the big straight |
| Indexation.GreatFlushHasBoth | shared/api/simpleschema_local_manager.py:157-171 | the great flush of a colour implies the small and the big flush of that colour |
| Dealing.DrawCards | shared/api/simpleschema_local_manager.py:179-188 | draw_cards fails with ValueError exactly when a count is negative or the total exceeds 24; otherwise it is the deal of the first total cards of the shuffled deck |
| Dealing.Deal | shared/api/simpleschema_local_manager.py:183-187 | hand i carries player i's nickname and exactly n_cards of player i cards |
| Dealing.DealUsesTheSample | shared/api/simpleschema_local_manager.py:181-187 | the hands put back together are exactly the sampled cards, in order |
| Dealing.HandsDisjoint | shared/api/simpleschema_local_manager.py:181-187 | from distinct cards, no card is dealt to two players |
| Dealing.DealFromDeck | shared/api/simpleschema_local_manager.py:180-187 | a deal from a shuffled deck hands out distinct cards of the game |
| Seating.AiPositions | shared/api/simpleschema_local_manager.py:200-201 | there is one reserved seat per AI |
| Seating.AiPositionsDistinct | shared/api/simpleschema_local_manager.py:196-201 | the reserved seats floor(i * N / A) + offset mod N are distinct seats of the table |
| Seating.SplitKeepsEveryone | shared/api/simpleschema_local_manager.py:202-204 | splitting the players into AIs and humans loses nobody |
| Seating.FillSeats | shared/api/simpleschema_local_manager.py:207-213 | the seating loop fills all N seats; the AIs keep their order, the humans keep theirs, and a seat holds an AI exactly when it is reserved |
| Seating.ArrangePlayers | shared/api/simpleschema_local_manager.py:191-215 | choice(range(0)) raises IndexError on no players; otherwise the result is a permutation of the players with the AIs, in order, exactly on the reserved seats and the shuffled humans, in order, on the others |
| Players.FindPlayer | shared/api/simpleschema_local_manager.py:234-237 | the first player with the nickname, None when nobody carries it |
| Players.Active | shared/api/simpleschema_local_manager.py:241 | a player is active exactly when it has n_cards != 0 or is the current player; the filtered list is no longer than the players |
| Players.FindPlayerAt | shared/api/simpleschema_local_manager.py:234-237 | under unique nicknames each player is found at its own position |
| Players.FindNextActivePlayer | shared/api/simpleschema_local_manager.py:240-244 | fails (IndexError) exactly when nobody carries the current nickname; otherwise returns an active player of the list |
| Players.NextActiveGoesRound | shared/api/simpleschema_local_manager.py:240-244 | with unique nicknames the result is the first player after the current one, round the table, with n_cards != 0, and the current player itself when there is none |
| GameRules.NextHasCards | shared/api/simpleschema_local_manager.py:240-244 | when another player holds cards, the next active player holds cards and is not the current player |
| LocalGame.Game.Save | shared/api/simpleschema_local_manager.py:120-124 | save stores the record under (game_uuid, round_number) and changes nothing else |
| LocalGame.Score | shared/api/simpleschema_local_manager.py:262-278 | only the loser's count changes: +1, or 0 beyond max_cards; the game finishes only when one player is left with cards; a loser still in plays next; any other new current player is a player of the game |
| LocalGame.NewRound | shared/api/simpleschema_local_manager.py:280-284 | the round advances and the history empties; the deal succeeds exactly when the counts can be dealt (ValueError otherwise, nothing saved) and then the new record is saved; players, turn and status are kept |
| LocalGame.SettleCheck | shared/api/simpleschema_local_manager.py:256-284 | the first save is the record with the loss marker (89) for the loser and no current player; only the loser's count changes; the round advances; the second save happens exactly when the new deal succeeds |
| LocalGame.CheckStep | shared/api/simpleschema_local_manager.py:247-284 | nothing is saved exactly when the check fails and leaves the game alone; IndexError exactly when the history is too short or the claim is outside the catalogue; otherwise the first save holds the loss marker for a player of the game |
| LocalGame.LoserFoundStep | shared/api/simpleschema_local_manager.py:250-256 | once the claim is judged and the loser found, handle_check goes on exactly as SettleCheck for that loser |
| LocalGame.PlayStep | shared/api/simpleschema_local_manager.py:287-299 | a claim appends (cp, action_id), saves nothing and succeeds exactly for -88..87 with a known current player, who passes the turn to a player of the game; a check that gets as far as saving records the check and then one more entry, the loss marker |
| LocalGame.Game.ScoreLoser | shared/api/simpleschema_local_manager.py:262-278 | the loser's update and the choice of the next player, as the function Score |
| LocalGame.Game.StartRound | shared/api/simpleschema_local_manager.py:280-284 | the round number advances, the history is emptied, a deal is drawn and the record saved, as NewRound |
| LocalGame.Game.Settle | shared/api/simpleschema_local_manager.py:256-284 | loss marker, cleared current player, first save, scoring, new round and second save, as SettleCheck |
| LocalGame.Game.HandleCheck | shared/api/simpleschema_local_manager.py:247-284 | the record, the files saved and the exception raised are those of CheckStep |
| LocalGame.Game.Play | shared/api/simpleschema_local_manager.py:287-299 | the record, the files saved and the exception raised are those of PlayStep |
| GameRules.CheckDecidesOrLeavesAlone | shared/api/simpleschema_local_manager.py:248-260 | a check that cannot name a loser raises IndexError or TypeError and leaves the game alone; otherwise the marked record with cp cleared is saved first |
| GameRules.ScoreCounts | shared/api/simpleschema_local_manager.py:262-278 | scoring changes the loser's count (+1, or 0 beyond max_cards) and no other player, round, history or deal |
| GameRules.NewRoundKeeps | shared/api/simpleschema_local_manager.py:280-284 | a new round advances the round, empties the history and deals afresh, keeping players, status and turn; it fails with ValueError exactly when the counts cannot be dealt |
| GameRules.CheckScoresTheLoser | shared/api/simpleschema_local_manager.py:249-282 | the loser is the checker when the claim holds over all hands, the claimant otherwise; the loser takes one card more and is out beyond max_cards; nobody else's count changes; the round advances and the history is emptied |
| GameRules.CheckOutcome | shared/api/simpleschema_local_manager.py:262-284 | the players after a decided check, spelled out, and the check completes exactly when they can be dealt |
| GameRules.CheckSetsTheTurn | shared/api/simpleschema_local_manager.py:257-278 | a loser still in plays next; a single player left finishes the game with no current player; an eliminated checker hands the turn to the next player round the table; an eliminated claimant leaves it with the checker |
| GameRules.RecountKeepsNames | shared/api/simpleschema_local_manager.py:262-265 | changing a count keeps every nickname, unique nicknames and every lookup |
| GameRules.PlayRecordsTheClaim | shared/api/simpleschema_local_manager.py:287-294 | a claim appends exactly (cp, action_id), saves nothing, changes only the current player, fails (IndexError) only outside the catalogue or for an unknown cp, and is not compared with the previous claim |
| GameRules.ClaimPassesTheTurn | shared/api/simpleschema_local_manager.py:288-294 | in a consistent running game a claim is accepted and passes the turn to the next player round the table who holds cards, never back to the claimant |
| GameRules.ClaimKeepsConsistent | shared/api/simpleschema_local_manager.py:287-294 | an accepted claim keeps a running game consistent |
| GameRules.CheckFindsALoser | shared/api/simpleschema_local_manager.py:248-254 | in a consistent running game a check after a claim names a loser who holds cards |
| GameRules.CheckFirstRaises | shared/api/simpleschema_local_manager.py:288-299 | a check as the first move of a round raises IndexError with the check left in the history |
| GameRules.CheckCompletes | shared/api/simpleschema_local_manager.py:247-284 | in a consistent running game a check after a claim completes, and the game finishes exactly when a single player has cards |
| GameRules.NextTurnHasCards | shared/api/simpleschema_local_manager.py:264-278 | after a completed check, the current player of a running game holds cards |
| GameRules.CheckKeepsConsistent | shared/api/simpleschema_local_manager.py:247-299 | a check in a consistent running game leaves it consistent |
| GameRules.ConsistentDeals | shared/api/simpleschema_local_manager.py:179-181 | in a consistent game every count fits in the deck, so dealing never raises |
| GameCreation.DecimalInjective | shared/api/simpleschema_local_manager.py:221 | the nicknames str(i) of different players differ |
| GameCreation.CreateGameAsWritten | shared/api/simpleschema_local_manager.py:217-231 | as written: ValueError exactly below 2 agents, NameError exactly above 2, and for 2 agents a running game of 2 players, max_cards 11, round 1 |
| GameCreation.CreateGame | shared/api/simpleschema_local_manager.py:217-231 | intended: a game exactly for 2..24 agents (ValueError otherwise), running, round 1, empty history, n_agents players with one card each, the first player to move |
| GameCreation.CreateGameAsWrittenFails | shared/api/simpleschema_local_manager.py:217-231 | as written, more than two agents raise NameError; two agents give the intended game |
| GameCreation.CreatedGameIsConsistent | shared/api/simpleschema_local_manager.py:217-231 | the intended create_game raises ValueError for fewer than 2 or more than 24 agents, and otherwise starts a consistent running game, round 1, empty history, one card per player |
| ProbabilityTable.ColumnsEnumerateBetType | shared/probabilities/probability_table.py:8-47 | the 35 BetType columns are listed once each, and position and column are inverse |
| ProbabilityTable.Generate | shared/probabilities/probability_table.py:61-298 | the nested loops build exactly the table of rows (n, o) and every row passes the assertion of line 297 |
| ProbabilityTable.RowProbabilitiesAtMostOne | shared/probabilities/probability_table.py:297 | every probability of a generated row is at most 1 or NaN |
| ProbabilityTable.ProbabilityInUnitInterval | shared/probabilities/probability_table.py:69-253 | every defined probability of a generated row lies in [0, 1] |
| ProbabilityTable.FrequencyBound | shared/probabilities/probability_table.py:72-253 | every defined numerator is at most C(24 - n, o) |
| ProbabilityTable.DenominatorPositive | shared/probabilities/probability_table.py:63-70 | the denominator C(24 - n, o) of every row is defined and at least 1 |
| ProbabilityTable.HighCardComplement | shared/probabilities/probability_table.py:72-74 | the high-card count is C(24 - n, o) - C(20 - n, o), the draws containing one of the 4 cards of the value |
| ProbabilityTable.Frequency | shared/probabilities/probability_table.py:72-253 | below its guard (n < k) a have_k column counts exactly 0 draws |
| ProbabilityTable.UndefinedCells | shared/probabilities/probability_table.py:155-163 | a cell is NaN exactly for straight with n >= 5 and straight_have_1 with n >= 9 |
| ProbabilityTable.RowColumns | shared/probabilities/probability_table.py:258-295 | each row holds exactly the 35 columns |
| ProbabilityTable.RowCell | shared/probabilities/probability_table.py:258-295 | each column holds that column's numerator |
| ProbabilityTable.RowKeyDecodes | shared/probabilities/probability_table.py:56-60 | the key 100 * n + o decodes back to n (div 100) and o (mod 100) |
| ProbabilityTable.RowKeyInjective | shared/probabilities/probability_table.py:255-256 | different (n, o) of the table have different keys |
| ProbabilityTable.Table | shared/probabilities/probability_table.py:61-301 | 198 rows, keys strictly increasing (so set_index's integrity check passes), a row exactly for 1 <= n <= 11 and 1 <= o <= 24 - n, each row the one its key decodes to |
| ConservativeAgent.Normalise | conservative_crawling_ai/agent.py:6-10 | normalise keeps the length |
| ConservativeAgent.NormaliseSumsToOne | conservative_crawling_ai/agent.py:6-10 | with a non-zero sum the result sums to 1 |
| ConservativeAgent.NormaliseKeepsZeros | conservative_crawling_ai/agent.py:6-10 | zero entries stay zero, and with a zero sum the input is returned unchanged |
| ConservativeAgent.NormaliseKeepsSign | conservative_crawling_ai/agent.py:6-10 | non-negative entries stay non-negative |
| ConservativeAgent.ElementwiseMul | conservative_crawling_ai/agent.py:13-14 | zip stops at the shorter list |
| ConservativeAgent.PositiveProductSum | conservative_crawling_ai/agent.py:13-14 | products of non-negative lists are non-negative, and a positive sum needs a position where both factors are positive |
| ConservativeAgent.SamplingWeightsProperties | conservative_crawling_ai/agent.py:16-17 | 88 weights, zero wherever the bet probability is zero, non-negative for non-negative probabilities, summing to 1 unless all raw weights vanish |
| ConservativeAgent.ComputeSamplingWeights | conservative_crawling_ai/agent.py:16-17 | 88 weights, zero wherever the bet probability is zero, summing to 1 unless all raw weights vanish |
| ConservativeAgent.ChoiceInInterval | conservative_crawling_ai/agent.py:72 | with non-negative weights and a positive total, the pick i is the index whose cumulative interval [w[0] + ... + w[i-1], w[0] + ... + w[i]) contains random() times the total |
| ConservativeAgent.Choose | conservative_crawling_ai/agent.py:72 | random.choices fails exactly when the total weight is at most 0 |
| ConservativeAgent.ChoosesPositiveWeight | conservative_crawling_ai/agent.py:67-72 | with non-negative weights, random.choices fails exactly when all weights are 0 and otherwise picks an index of positive weight |
| ConservativeAgent.SampledRaise | conservative_crawling_ai/agent.py:50-72 | the final sample fails exactly when the raw weights sum to 0; after a claim, a sample with non-negative probabilities lies above the claim |
| ConservativeAgent.RaiseHasWeight | conservative_crawling_ai/agent.py:56-67 | when the agent decides to raise, with probabilities in [0, 1], some bet above the last claim carries weight |
| ConservativeAgent.ZeroBefore | conservative_crawling_ai/agent.py:50-51 | the loop zeroes every probability below the last claim and keeps the rest; with the claim zeroed too it is the masked vector |
| ConservativeAgent.DetermineAction | conservative_crawling_ai/agent.py:30-74 | raises unless exactly one hand is the agent's, and when players or the others' cards are missing; checks on an impossible last claim or on zero cubed weights; otherwise checks exactly when the first choice picks check; a raise is the second choice from the masked weights, lies in 0..87 and is above the last claim; with no claim it never checks, and fails only when all weights vanish |

## Left out

- `load_indexation` is not modelled as text parsing: `Indexation.Catalog` is the parsed catalogue, written out as typed rows. `Catalog` and `CatalogAt` state its contents.
- `save` writes JSON files under `games/`. It is modelled as a map from (game_uuid, round_number) to the saved record; the directory, the JSON encoding and I/O errors are not modelled.
- `uuid.uuid4`, `random.sample`, `shuffle`, `choice` and `random.random` are parameters (see above). No claim is made about their distributions.
- Verbose printing in `play` and `create_game`, and the message rewrapping of `determine_set_existence`'s `except` clause, are not modelled. The exception type is kept.
- Values of the wrong type (strings as counts, a missing key, `int()` of text, a non-integer action id) are not modelled. Players, hands and cards are typed records, so the `TypeError` and `KeyError` paths of such inputs do not arise; the `TypeError` of a loser nobody is called is modelled.
- `ProbabilityTable.Generate`: probabilities are exact ratios of natural numbers, so floating-point rounding is not modelled.
- The pandas DataFrame, `to_csv`, `load` and `get` are not modelled. The table is a sequence of rows, and `Table` states the shape `set_index(verify_integrity=True)` requires.
- `ConservativeAgent.DetermineAction`: floats are modelled as reals, so there is no rounding, NaN or infinity. The two probability vectors come from a probability handler that is not part of this model; they are inputs of 88 entries each.
- The agent's `random.choices` follows CPython 3.9 and later, which raise `ValueError` when the total weight is not positive. That error is `SamplingFailed`.
- `ConservativeAgent.DetermineAction`: every player in the agent's view carries a nickname and an integer card count, so `player.get("nickname", agent_nickname)` and a missing `n_cards` are not modelled.
- `ConservativeAgent.run`, the HTTP game manager, the orchestrators, the other agents and the probability handler are not part of this model.
- `ConservativeAgent.Normalise`: its own contract states only the length. The lemmas next to it state the sum, the entries and the sign.
- `ConservativeAgent.ElementwiseMul`: its contract states only the length. `PositiveProductSum` states what the products mean for the weights.

## Findings

| source | as written | input that shows it | evidently intended | confidence | as-written member | corrected member |
|---|---|---|---|---|---|---|
| shared/api/simpleschema_local_manager.py:226 | `max_cards` divides by `n_players`, a name defined nowhere, whenever there are more than two players | `create_game(3)` raises NameError | `floor(24 / n_agents)` for more than two players | not executed | GameCreation.CreateGameAsWrittenFails | GameCreation.CreatedGameIsConsistent |
