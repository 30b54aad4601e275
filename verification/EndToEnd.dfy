/** The loops of the two ends, each run against what the other and the network made of a joint run. */
module EndToEnd {
  import opened Types
  import opened Text
  import opened InfoStr
  import opened Wire
  import opened Io
  import opened Runs
  import opened Joint
  import Calc
  import Cntl
  import Conduct
  import Faithful
  import Local
  import Lockstep
  import Safety
  import P = PusherMachine
  import Q = PullerMachine

  /** What the pusher's loops do in a joint run; `Pusher.PushEnd.StartPusher` computes it. */
  ghost function PusherRun(c: Params, actions: seq<Action>): Run<P.State>
    requires IsRun(c, Init(c), actions)
  {
    Exec(P.Sender(c.push), Run(P.Init(c.push), []), Local.PusherScript(c, Init(c), actions), 0)
  }

  /** What the puller's loops do; `Puller.PullEnd.StartPuller` computes it. */
  ghost function PullerRun(c: Params, actions: seq<Action>): Run<Q.State>
    requires IsRun(c, Init(c), actions)
  {
    Exec(Q.Receiver(c.pull), Run(Q.Init(c.pull), []), Local.PullerScript(c, Init(c), actions), 0)
  }

  /**
   * Whatever the network delivers and whichever calls fail: when the pusher's loops return SUCCESS, the puller's have
   * returned it too, and their file has the pusher's size, CRC16 and chunk CRC32s.
   */
  lemma LoopsAgree(c: Params, actions: seq<Action>)
    requires c.Valid() && IsRun(c, Init(c), actions)
    requires P.Halted(Final(c, Init(c), actions).p) && P.Outcome(PusherRun(c, actions).s) == SUCCESS
    ensures Q.Outcome(PullerRun(c, actions).s) == SUCCESS
    ensures var file := PullerRun(c, actions).s.file;
            && |file| == |c.push.file| && c.push.crc16(file) == c.push.crc16(c.push.file)
            && forall k: u32 | 1 <= k <= c.push.chcount :: Lockstep.ChunkOk(c, file, k)
  {
    var s := Final(c, Init(c), actions);
    assert Reachable(c, s);
    Local.PusherAlone(c, actions);
    Safety.Agreement(c, s);
    Local.PullerAlone(c, actions);
  }

  /**
   * Over a lossless network and without failures, every way the two loops can take turns to the end gives two
   * SUCCESSes and an equal file if the size is not a multiple of the chunk size, and two EMFSEEKs if it is.
   */
  lemma LoopsDeliver(c: Params, actions: seq<Action>)
    requires c.Valid() && Faithful.FaithfulRun(c, Init(c), actions) && Faithful.Stuck(Final(c, Init(c), actions))
    requires c.push.chsize != 0
    ensures P.Outcome(PusherRun(c, actions).s) == Q.Outcome(PullerRun(c, actions).s)
            == if |c.push.file| % c.push.chsize != 0 then SUCCESS else EMFSEEK
    ensures |c.push.file| % c.push.chsize != 0 ==> PullerRun(c, actions).s.file == c.push.file
  {
    hide P.Conf.Valid, Faithful.Stuck;
    Faithful.FaithfulRunsDeliver(c, actions);
    Faithful.LosslessInit(c);
    Faithful.LosslessAlong(c, Init(c), actions);
    Local.PusherAlone(c, actions);
    Local.PullerAlone(c, actions);
  }

  /** The two ends set up for a file below 2^32 bytes that is not an exact multiple of the chunk size. */
  function Transfer(file: seq<byte>, chsize: u16, pushTries: nat, pullTries: nat,
                    crc32: seq<byte> -> u32, crc16: seq<byte> -> u16): Params
    requires chsize != 0 && |file| < POW32
  {
    Params(P.Configure(file, chsize, pushTries, crc32, crc16), Q.Conf(pullTries, crc32, crc16))
  }

  lemma TransferIsValid(file: seq<byte>, chsize: u16, pushTries: nat, pullTries: nat,
                        crc32: seq<byte> -> u32, crc16: seq<byte> -> u16)
    requires chsize != 0 && |file| < POW32 && |file| % chsize != 0 && pushTries > 0 && pullTries > 0
    ensures var c := Transfer(file, chsize, pushTries, pullTries, crc32, crc16);
            c.Valid() && c.push.file == file && c.push.chsize == chsize
  {
    hide Calc.ChunkCount, Calc.Fits, P.Conf.Valid;
    Calc.SmallUnevenFits(|file|, chsize);
    P.ConfigureIsValid(file, chsize, pushTries, crc32, crc16);
  }

  /**
   * Every such file arrives whole: both loops return SUCCESS, however their turns interleave, whatever the two
   * checksum functions are.
   */
  lemma EveryUnevenFileArrives(file: seq<byte>, chsize: u16, pushTries: nat, pullTries: nat,
                               crc32: seq<byte> -> u32, crc16: seq<byte> -> u16, actions: seq<Action>)
    requires chsize != 0 && |file| < POW32 && |file| % chsize != 0 && pushTries > 0 && pullTries > 0
    requires var c := Transfer(file, chsize, pushTries, pullTries, crc32, crc16);
             Faithful.FaithfulRun(c, Init(c), actions) && Faithful.Stuck(Final(c, Init(c), actions))
    ensures var c := Transfer(file, chsize, pushTries, pullTries, crc32, crc16);
            && P.Outcome(PusherRun(c, actions).s) == SUCCESS
            && Q.Outcome(PullerRun(c, actions).s) == SUCCESS && PullerRun(c, actions).s.file == file
  {
    hide Transfer, Params.Valid, Faithful.FaithfulRun, Faithful.Stuck, PusherRun, PullerRun;
    TransferIsValid(file, chsize, pushTries, pullTries, crc32, crc16);
    LoopsDeliver(Transfer(file, chsize, pushTries, pullTries, crc32, crc16), actions);
  }

  /**
   * In every joint run the pusher's SEND packets carry its sizes: the first packet of all without a checksum, and a
   * later one, with which the pusher ends, with the CRC16 of the file. All others offer a chunk.
   */
  lemma PacketsOfPusher(c: Params, actions: seq<Action>)
    requires c.Valid() && IsRun(c, Init(c), actions)
    ensures var told := Local.Packets(Local.PusherSent(c, Init(c), actions));
            && (forall k | 0 <= k < |told| && told[k].Send? ::
                  && told[k].chsize == c.push.chsize && told[k].chcount == c.push.chcount
                  && told[k].pchsize == c.push.pchsize
                  && told[k].crc == (if k == 0 then 0 else c.push.crc16(c.push.file)) && (k == 0 || k == |told| - 1))
            && (forall k | 0 <= k < |told| && !told[k].Send? :: k > 0 && Conduct.Offers(c.push, told[k]))
  {
    hide P.Conf.Valid, Conduct.Offers;
    Local.PusherAlone(c, actions);
    Conduct.PusherPackets(c.push, Local.PusherScript(c, Init(c), actions));
  }

  // ---------- the same on the bytes of the control connection ----------

  /** The messages that carry these packets; CAST and SEND carry the info text as well. */
  function Messages(packets: seq<Packet>, text: seq<byte>): (ms: seq<Cntl.Message>)
    requires |text| < INFOSTRSIZE && NUL !in text
    ensures |ms| == |packets| && forall m | m in ms :: Cntl.WellFormed(m)
  {
    seq(|packets|, k requires 0 <= k < |packets| =>
      Cntl.Message(packets[k], if Cntl.CarriesInfo(TypeOf(packets[k])) then text else []))
  }

  /** Pulled from the bytes of everything in `log`, by their types, the packets `pulled` come out and `left` remains. */
  ghost predicate Carries(sender: Host, receiver: Host, text: seq<byte>, log: seq<Out>,
                          pulled: seq<Packet>, left: seq<Packet>)
    requires |text| < INFOSTRSIZE && NUL !in text
  {
    Cntl.PullAll(receiver, Cntl.TypesOf(Messages(pulled, text)),
                 Cntl.StreamOf(sender, Messages(Local.Packets(log), text)))
    == (Messages(pulled, text), Cntl.StreamOf(sender, Messages(left, text)))
  }

  lemma PrefixIsCarried(sender: Host, receiver: Host, text: seq<byte>, log: seq<Out>,
                        pulled: seq<Packet>, left: seq<Packet>)
    requires |text| < INFOSTRSIZE && NUL !in text && Local.Packets(log) == pulled + left
    ensures Carries(sender, receiver, text, log, pulled, left)
  {
    assert Messages(pulled + left, text) == Messages(pulled, text) + Messages(left, text);
    Cntl.StreamPrefix(sender, receiver, Messages(pulled, text), Messages(left, text));
  }

  /**
   * In every joint run, what the loops of one end pull are, in order, the first control packets the loops of the other
   * end have sent; so the byte streams between hosts of any byte order carry the whole run, and hold at its end just
   * the packets in flight.
   */
  lemma StreamsCarryRun(c: Params, actions: seq<Action>, pusher: Host, puller: Host, text: seq<byte>)
    requires IsRun(c, Init(c), actions) && |text| < INFOSTRSIZE && NUL !in text
    ensures var last := Final(c, Init(c), actions);
            var pulled := Local.PullerPulled(c.pull, Q.Init(c.pull), Local.PullerScript(c, Init(c), actions), 0);
            && Local.Packets(PusherRun(c, actions).log) == pulled + last.down
            && Carries(pusher, puller, text, PusherRun(c, actions).log, pulled, last.down)
    ensures var last := Final(c, Init(c), actions);
            var pulled := Local.PusherPulled(c.push, P.Init(c.push), Local.PusherScript(c, Init(c), actions), 0);
            && Local.Packets(PullerRun(c, actions).log) == pulled + last.up
            && Carries(puller, pusher, text, PullerRun(c, actions).log, pulled, last.up)
  {
    hide Carries;
    var last := Final(c, Init(c), actions);
    var down := Local.PullerPulled(c.pull, Q.Init(c.pull), Local.PullerScript(c, Init(c), actions), 0);
    var up := Local.PusherPulled(c.push, P.Init(c.push), Local.PusherScript(c, Init(c), actions), 0);
    Local.PusherAlone(c, actions);
    Local.PullerAlone(c, actions);
    PrefixIsCarried(pusher, puller, text, PusherRun(c, actions).log, down, last.down);
    PrefixIsCarried(puller, pusher, text, PullerRun(c, actions).log, up, last.up);
  }
}
