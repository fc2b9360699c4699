/**
 The logging thread as the object it is: it writes what it pops to standard output and, if one is open, to a file.
 What other threads push before each of its pops is input.
 */
module Logger {
  import opened Sequences

  class AsyncLogger<M> {
    var m_log_queue: seq<M>
    var m_stdout: seq<M>
    var m_log_file: seq<M>
    const has_file: bool

    constructor (has_file: bool, queue: seq<M>)
      ensures m_log_queue == queue && m_stdout == [] && m_log_file == [] && this.has_file == has_file
    {
      m_log_queue, m_stdout, m_log_file, this.has_file := queue, [], [], has_file;
    }

    /** The file mirrors standard output. */
    ghost predicate Mirrored()
      reads this
    {
      m_log_file == if has_file then m_stdout else []
    }

    method WriteMessage(message: M)
      requires Mirrored()
      modifies `m_stdout, `m_log_file
      ensures Mirrored() && m_stdout == old(m_stdout) + [message]
    {
      m_stdout := m_stdout + [message];
      if has_file {
        m_log_file := m_log_file + [message];
      }
    }

    /** Pop with a token stopped beforehand, until a pop returns nothing. */
    method Drain()
      requires Mirrored()
      modifies this
      ensures Mirrored() && m_log_queue == [] && m_stdout == old(m_stdout) + old(m_log_queue)
    {
      ghost var queue := m_log_queue;
      while |m_log_queue| > 0
        invariant Mirrored() && m_stdout + m_log_queue == old(m_stdout) + queue
        decreases |m_log_queue|
      {
        var message := m_log_queue[0];
        assert m_stdout + m_log_queue == (m_stdout + [message]) + m_log_queue[1..];
        m_log_queue := m_log_queue[1..];
        WriteMessage(message);
      }
    }

    /**
     The main loop pops until it sees a stop, between two pops or because a pop returns nothing; then it drains.
     `pushed[i]` is what other threads push before pop `i`, and `pops` counts the pops of the main loop.
     Everything pushed until then is written once, in order, and nothing is left. The main loop goes on as long as the
     input does, unless its last pop found nothing, all earlier ones having taken one message each.
     */
    method Run(pushed: seq<seq<M>>) returns (pops: nat)
      requires Mirrored()
      modifies this
      ensures pops <= |pushed|
      ensures Mirrored() && m_log_queue == []
      ensures m_stdout == old(m_stdout) + old(m_log_queue) + Flatten(pushed[..pops])
      ensures pops == |pushed| || (pops > 0 && |old(m_log_queue)| + |Flatten(pushed[..pops])| == pops - 1)
    {
      pops := 0;
      ghost var all := old(m_log_queue);
      while pops < |pushed|
        invariant pops <= |pushed| && Mirrored()
        invariant all == old(m_log_queue) + Flatten(pushed[..pops])
        invariant m_stdout + m_log_queue == old(m_stdout) + all
        invariant |m_stdout| == |old(m_stdout)| + pops
        decreases |pushed| - pops
      {
        FlattenOneMore(pushed, pops);
        assert m_stdout + (m_log_queue + pushed[pops]) == (m_stdout + m_log_queue) + pushed[pops] ==
          old(m_stdout) + (all + pushed[pops]);
        assert all + pushed[pops] == old(m_log_queue) + Flatten(pushed[..pops + 1]);
        m_log_queue := m_log_queue + pushed[pops];
        all := all + pushed[pops];
        pops := pops + 1;
        if |m_log_queue| == 0 {
          break;
        }
        var message := m_log_queue[0];
        assert m_stdout + m_log_queue == (m_stdout + [message]) + m_log_queue[1..];
        m_log_queue := m_log_queue[1..];
        WriteMessage(message);
      }
      Drain();
      assert old(m_stdout) + all == old(m_stdout) + old(m_log_queue) + Flatten(pushed[..pops]);
    }
  }
}
