/** The source's side of the exchange as the client object that keeps the three flags. */
module WfdClient {
  import opened Handshake

  class Client {
    var m1Done: bool
    var m3Done: bool
    var m4Done: bool
    /** The requests and answers handed to the connection, in order. */
    var out: seq<Out>

    /** This client in a world with the given channel and history. */
    function Within(inn: seq<In>, sent: seq<Out>, handled: seq<Out>): State
      reads this
    {
      State(m1Done, m3Done, m4Done, out, inn, sent, handled)
    }

    /** start_wfd: nothing is done yet, and M1 is sent. */
    constructor ()
      ensures Within([], [M1], []) == Start()
    {
      m1Done, m3Done, m4Done := false, false, false;
      out := [M1];
    }

    /** handle_wfd_response: size is that of the body. */
    method HandleResponse(size: nat, parses: bool, sends: bool)
      modifies this
      ensures m1Done <==> old(m1Done) || size == 0
      ensures m3Done <==> old(m3Done) || (size > 0 && parses)
      ensures m4Done <==> old(m4Done) || (size == 0 && old(m1Done))
      ensures out == old(out) + (if m3Done != old(m3Done) && sends then [M4]
                                 else if m4Done != old(m4Done) && sends then [Setup] else [])
      ensures forall inn, sent, handled ::
                Respond(old(Within(inn, sent, handled)), size > 0, parses, sends)
                == Within(inn, Respond(old(Within(inn, sent, handled)), size > 0, parses, sends).sent, handled)
    {
      if size > 0 {
        if !m3Done {
          if parses {
            GetParamRequestDone(sends);
          }
        }
      } else if !m1Done {
        m1Done := true;
      } else if !m4Done {
        m4Done := true;
        if sends {
          out := out + [Setup];
        }
      }
    }

    /** wfd_get_param_request_done: M3 is done, M4 is next. */
    method GetParamRequestDone(sends: bool)
      modifies this
      ensures m1Done == old(m1Done) && m3Done && m4Done == old(m4Done)
      ensures out == if sends then old(out) + [M4] else old(out)
    {
      m3Done := true;
      if sends {
        out := out + [M4];
      }
    }

    /** handle_wfd_options_request: answered only when it names a user agent; when the answer
        could be sent, M3 follows. */
    method HandleOptions(agent: bool, answers: bool, sends: bool) returns (ok: bool)
      modifies this
      ensures ok <==> agent && answers
      ensures out == old(out) + (if !agent || !answers then []
                                 else if sends then [OptionsAnswer, M3] else [OptionsAnswer])
      ensures m1Done == old(m1Done) && m3Done == old(m3Done) && m4Done == old(m4Done)
      ensures forall inn, sent, handled ::
                AnswerOptions(old(Within(inn, sent, handled)), agent, answers, sends)
                == Within(inn, AnswerOptions(old(Within(inn, sent, handled)), agent, answers, sends).sent, handled)
    {
      if !agent || !answers {
        return false;
      }
      out := out + [OptionsAnswer];
      if sends {
        out := out + [M3];
      }
      ok := true;
    }
  }
}
