/**
 * The part of the host agent session that the interrupt logic touches:
 * whether the agent is currently speaking, and its interrupt action.  The
 * session itself (audio output, transport) is outside the model; its
 * interrupt action is modelled by a counter of the calls made to it.
 */
module AgentSession {

  class Session {
    /** `session.is_speaking`: owned by the host, only read by the detectors. */
    var isSpeaking: bool
    /** How many times `session.interrupt()` has been called. */
    var interrupts: nat

    constructor (speaking: bool)
      ensures isSpeaking == speaking && interrupts == 0
    {
      isSpeaking := speaking;
      interrupts := 0;
    }

    /** `await session.interrupt()`: one more call.  What the host then does
        to its playout is its own business, so `isSpeaking` is left open. */
    method Interrupt()
      modifies this
      ensures interrupts == old(interrupts) + 1
    {
      interrupts := interrupts + 1;
    }
  }
}
