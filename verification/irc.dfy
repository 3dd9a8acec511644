/**
 * The commands the bot sends to Twitch's IRC gateway: the login handshake
 * (`connect`), the reply to a keepalive PING (`keepalive`), and one JOIN or
 * PART per channel (`join_channels`, `leave_channels`). Sending is modelled as
 * producing the sequence of commands in the order they are sent; the socket
 * and the `bottom` client are not modelled.
 */
module Irc {
  import opened Python

  /** An outbound command with the argument the bot gives it. */
  datatype Command =
    | Pass(password: string)
    | Nick(nick: string)
    | Raw(line: string)
    | Join(channel: string)
    | Part(channel: string)
    | Pong(message: string)

  /** The prefix the gateway requires on an OAuth password. */
  const OAuthPrefix: string := "oauth:"

  /** The capability request sent after logging in, asking for JOIN/PART membership events. */
  const MembershipCapability: string := "CAP REQ :twitch.tv/membership"

  /** The IRC channel of a streamer, `"#{}".format(name)`; the name can be read back from it. */
  function Channel(name: string): (channel: string)
    ensures |channel| == |name| + 1 && channel[0] == '#' && channel[1..] == name
  {
    "#" + name
  }

  /** Different streamers have different channels. */
  lemma ChannelInjective(a: string, b: string)
    ensures Channel(a) == Channel(b) <==> a == b
  {
    if Channel(a) == Channel(b) {
      assert a == Channel(a)[1..];
    }
  }

  /**
   * The password sent with PASS: the configured token, with "oauth:" put in
   * front when it does not already start with it.
   */
  function NormalizeToken(token: string): (password: string)
    ensures StartsWith(password, OAuthPrefix)
    ensures StartsWith(token, OAuthPrefix) ==> password == token
    ensures !StartsWith(token, OAuthPrefix) ==> password[|OAuthPrefix|..] == token
  {
    if !StartsWith(token, OAuthPrefix) then OAuthPrefix + token else token
  }

  /** Normalising an already normalised token changes nothing. */
  lemma NormalizeTokenIdempotent(token: string)
    ensures NormalizeToken(NormalizeToken(token)) == NormalizeToken(token)
  {
  }

  /** What `connect` sends once the transport is up: PASS, then NICK, then the capability request. */
  function Handshake(token: string, username: string): (sent: seq<Command>)
    ensures |sent| == 3
    ensures sent[0] == Pass(NormalizeToken(token)) && StartsWith(sent[0].password, OAuthPrefix)
    ensures sent[1] == Nick(username)
    ensures sent[2] == Raw(MembershipCapability)
  {
    [Pass(NormalizeToken(token)), Nick(username), Raw(MembershipCapability)]
  }

  /**
   * A token configured without the prefix logs in exactly as the same token
   * configured with it.
   */
  lemma HandshakeIgnoresPrefix(token: string, username: string)
    ensures !StartsWith(token, OAuthPrefix) ==>
              Handshake(OAuthPrefix + token, username) == Handshake(token, username)
    ensures Handshake(NormalizeToken(token), username) == Handshake(token, username)
  {
    var prefixed := OAuthPrefix + token;
    assert prefixed[..|OAuthPrefix|] == OAuthPrefix;
  }

  /** The reply `keepalive` sends to a PING: a PONG carrying the same payload. */
  function Keepalive(message: string): (reply: Command)
    ensures reply.Pong? && reply.message == message
  {
    Pong(message)
  }

  /** The JOIN commands for a list of names, in list order. */
  function JoinAll(names: seq<string>): (sent: seq<Command>)
    ensures |sent| == |names|
    ensures forall i | 0 <= i < |names| :: sent[i] == Join(Channel(names[i]))
  {
    seq(|names|, i requires 0 <= i < |names| => Join(Channel(names[i])))
  }

  /** The PART commands for a list of names, in list order. */
  function PartAll(names: seq<string>): (sent: seq<Command>)
    ensures |sent| == |names|
    ensures forall i | 0 <= i < |names| :: sent[i] == Part(Channel(names[i]))
  {
    seq(|names|, i requires 0 <= i < |names| => Part(Channel(names[i])))
  }

  /** `join_channels`: one JOIN per name, sent in list order. */
  method JoinChannels(channels: seq<string>) returns (sent: seq<Command>)
    ensures sent == JoinAll(channels)
  {
    sent := [];
    for k := 0 to |channels|
      invariant sent == JoinAll(channels[..k])
    {
      sent := sent + [Join(Channel(channels[k]))];
    }
    assert channels[..|channels|] == channels;
  }

  /** `leave_channels`: one PART per name, sent in list order. */
  method LeaveChannels(channels: seq<string>) returns (sent: seq<Command>)
    ensures sent == PartAll(channels)
  {
    sent := [];
    for k := 0 to |channels|
      invariant sent == PartAll(channels[..k])
    {
      sent := sent + [Part(Channel(channels[k]))];
    }
    assert channels[..|channels|] == channels;
  }
}
