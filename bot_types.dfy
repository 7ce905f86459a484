/** The request and response shapes the bots exchange with the game server (bots/bot.go).
    Cards travel as their text codes; actions and stacks are strings. */
module BotTypes {

  type Action = string

  const ActionDraw: Action := "draw"
  const ActionDiscard: Action := "discard"
  const ActionScore: Action := "score"

  type Stack = string

  const StackDiscard: Stack := "discard"
  const StackDeck: Stack := "deck"

  /** What the server sends: the discard pile and the hand as card codes, the action asked
      for, the newest card, the player count, the round and whether this is the last turn. */
  datatype BotRequest = BotRequest(
    discard: seq<string>,
    hand: seq<string>,
    action: Action,
    newestCard: string,
    playerCount: int,
    round: int,
    lastTurn: bool)

  datatype DrawResponse = DrawResponse(action: Action, stack: Stack)

  datatype DiscardResponse = DiscardResponse(
    sequences: seq<seq<string>>, action: Action, card: string, flop: bool)

  datatype ScoreResponse = ScoreResponse(sequences: seq<seq<string>>, action: Action, flop: bool)
}
