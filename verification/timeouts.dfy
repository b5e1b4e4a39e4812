/**
 The two periodic sweeps over the registry: `check_game_timeouts`
 (src/games/tictactoe_4x4/utils.py), which ends games idle for more than 60
 seconds, and `timeout_handler` (src/bot/handlers/error_handlers.py), the job
 the bot's entry point schedules every `GAME_TIMEOUT_SECONDS`, which ends every
 game in progress without looking at the clock. Both announce the opponent of
 the player to move as the winner, then delete the ended games. The messages
 themselves are left out; which sends fail is a parameter.
 */
module Timeouts {
  import opened Common
  import opened Sessions
  import opened CallbackHandlers

  /** The idle limit written into `check_game_timeouts`. */
  const SweepLimit := 60

  function ExpiredChats(reg: Registry, now: int, limit: int): set<ChatId> {
    set c | c in reg && Expired(reg[c], now, limit)
  }

  function LiveChats(reg: Registry): set<ChatId> {
    set c | c in reg && Live(reg[c])
  }

  /** The registry without the chats in `gone`. */
  function Without(reg: Registry, gone: set<ChatId>): Registry {
    map c | c in reg && c !in gone :: reg[c]
  }

  /** A non-empty set has a member. */
  lemma NonEmptyHasMember(chats: set<ChatId>)
    requires chats != {}
    ensures exists c :: c in chats
  {
    if forall c :: c !in chats {
    }
  }

  /** Some member of a non-empty set of chats: the next key the iteration visits. */
  method AnyChat(chats: set<ChatId>) returns (c: ChatId)
    requires chats != {}
    ensures c in chats
  {
    NonEmptyHasMember(chats);
    c :| c in chats;
  }

  /** The announcement for a game cannot be made: the winner's name entry is
      missing (a `KeyError`) or sending to the chat fails. */
  predicate AnnounceFails(s: Session, chat: ChatId, sendFails: set<ChatId>) {
    Other(s.current) !in s.names || chat in sendFails
  }

  /** `check_game_timeouts`, visiting the chats in an arbitrary order. Nothing
      catches a failed announcement: it ends the sweep before the deletion
      loop, so the registry is untouched. Otherwise exactly the expired games
      are deleted. `winners` holds the announcements made. */
  method CheckGameTimeouts(reg: Registry, now: int, sendFails: set<ChatId>)
    returns (reg': Registry, winners: map<ChatId, Player>, raised: bool)
    ensures raised <==> exists c | c in reg && Expired(reg[c], now, SweepLimit) :: AnnounceFails(reg[c], c, sendFails)
    ensures raised ==> reg' == reg
    ensures !raised ==> reg' == Without(reg, ExpiredChats(reg, now, SweepLimit))
    ensures !raised ==> winners.Keys == ExpiredChats(reg, now, SweepLimit)
    ensures forall c | c in winners :: c in ExpiredChats(reg, now, SweepLimit) && winners[c] == Other(reg[c].current)
    ensures RegistryDiscipline(reg) ==> RegistryDiscipline(reg')
  {
    var remaining := reg.Keys;
    winners := map[];
    raised := false;
    while !raised && remaining != {}
      invariant remaining <= reg.Keys
      invariant forall c | c in winners :: c in ExpiredChats(reg, now, SweepLimit) && winners[c] == Other(reg[c].current)
      invariant !raised ==> winners.Keys == ExpiredChats(reg, now, SweepLimit) - remaining
      invariant !raised ==> forall c | c in reg && c !in remaining && Expired(reg[c], now, SweepLimit) ::
                              !AnnounceFails(reg[c], c, sendFails)
      invariant raised ==> exists c | c in reg && Expired(reg[c], now, SweepLimit) :: AnnounceFails(reg[c], c, sendFails)
      decreases |remaining|
    {
      var c := AnyChat(remaining);
      remaining := remaining - {c};
      var s := reg[c];
      if Live(s) && now - s.lastActionTime > SweepLimit {
        if AnnounceFails(s, c, sendFails) {
          raised := true;
        } else {
          winners := winners[c := Other(s.current)];
        }
      }
    }
    if raised {
      reg' := reg;
    } else {
      reg' := Without(reg, winners.Keys);
    }
  }

  /** `timeout_handler`. A failed send is caught and the game is deleted all
      the same; a missing name entry raises past that handler, ends the sweep
      and nothing is deleted. `winners` lists every ended game with its winner
      and `delivered` the chats whose announcement went out. */
  method TimeoutHandler(reg: Registry, sendFails: set<ChatId>)
    returns (reg': Registry, winners: map<ChatId, Player>, delivered: set<ChatId>, raised: bool)
    ensures raised <==> exists c | c in reg && Live(reg[c]) :: Other(reg[c].current) !in reg[c].names
    ensures raised ==> reg' == reg
    ensures !raised ==> reg' == Without(reg, LiveChats(reg))
    ensures !raised ==> winners.Keys == LiveChats(reg) && delivered == LiveChats(reg) - sendFails
    ensures forall c | c in winners :: c in LiveChats(reg) && winners[c] == Other(reg[c].current)
    ensures delivered <= winners.Keys
    ensures RegistryDiscipline(reg) ==> RegistryDiscipline(reg')
  {
    var remaining := reg.Keys;
    winners := map[];
    raised := false;
    while !raised && remaining != {}
      invariant remaining <= reg.Keys
      invariant forall c | c in winners :: c in LiveChats(reg) && winners[c] == Other(reg[c].current)
      invariant !raised ==> winners.Keys == LiveChats(reg) - remaining
      invariant !raised ==> forall c | c in reg && c !in remaining && Live(reg[c]) ::
                              Other(reg[c].current) in reg[c].names
      invariant raised ==> exists c | c in reg && Live(reg[c]) :: Other(reg[c].current) !in reg[c].names
      decreases |remaining|
    {
      var c := AnyChat(remaining);
      remaining := remaining - {c};
      var s := reg[c];
      if Live(s) {
        var winner := Other(s.current);
        if winner !in s.names {
          raised := true;
        } else {
          winners := winners[c := winner];
        }
      }
    }
    delivered := winners.Keys - sendFails;
    if raised {
      reg' := reg;
    } else {
      reg' := Without(reg, winners.Keys);
    }
  }

  /** Under the bookkeeping neither sweep meets a missing name entry, so the
      periodic job always runs to the end and only failed sends can stop the
      idle sweep. */
  lemma SweepsOnlyFailOnSends(reg: Registry, now: int, sendFails: set<ChatId>)
    requires RegistryDiscipline(reg)
    ensures forall c | c in reg && Live(reg[c]) :: Other(reg[c].current) in reg[c].names
    ensures (exists c | c in reg && Expired(reg[c], now, SweepLimit) :: AnnounceFails(reg[c], c, sendFails))
            <==> ExpiredChats(reg, now, SweepLimit) * sendFails != {}
  {
    if c :| c in ExpiredChats(reg, now, SweepLimit) * sendFails {
      assert c in reg && Expired(reg[c], now, SweepLimit) && AnnounceFails(reg[c], c, sendFails);
    }
    if c :| c in reg && Expired(reg[c], now, SweepLimit) && AnnounceFails(reg[c], c, sendFails) {
      assert c in ExpiredChats(reg, now, SweepLimit) * sendFails;
    }
  }

  /** The idle sweep and the per-chat inactivity test use the same limit: a
      chat is swept exactly when the inactivity test would end its game. */
  lemma SweepMatchesInactivityTest(reg: Registry, chat: ChatId, now: int)
    requires RegistryDiscipline(reg)
    ensures chat in ExpiredChats(reg, now, SweepLimit) <==>
              CheckInactivity(reg, chat, now, false).Value? && CheckInactivity(reg, chat, now, false).value.1.Some?
    ensures chat in ExpiredChats(reg, now, SweepLimit) ==>
              CheckInactivity(reg, chat, now, false) == Value((reg - {chat}, Some(Other(reg[chat].current))))
  {
  }

  /** The scheduled job ends every game in progress, also one whose last
      action is this very moment, which the idle sweep and the inactivity test
      keep. */
  lemma JobIgnoresActivity(reg: Registry, chat: ChatId, now: int)
    requires chat in reg && Live(reg[chat]) && reg[chat].lastActionTime == now
    ensures chat in LiveChats(reg)
    ensures chat !in ExpiredChats(reg, now, SweepLimit)
    ensures CheckInactivity(reg, chat, now, false) == Value((reg, None))
  {
  }

  /** Both sweeps on the same registry: when both run to the end, every game
      the idle sweep ends the scheduled job ends too, naming the same winner,
      and whatever the job leaves registered the idle sweep leaves too. */
  method SweepsCompared(reg: Registry, now: int, sendFails: set<ChatId>)
    returns (idle: map<ChatId, Player>, job: map<ChatId, Player>, idleReg: Registry, jobReg: Registry)
    requires RegistryDiscipline(reg)
    ensures idle.Keys <= job.Keys && forall c | c in idle :: idle[c] == job[c]
    ensures jobReg.Keys <= idleReg.Keys <= reg.Keys
    ensures job.Keys == LiveChats(reg) && jobReg == Without(reg, LiveChats(reg))
  {
    var raisedIdle, raisedJob;
    idleReg, idle, raisedIdle := CheckGameTimeouts(reg, now, sendFails);
    var delivered;
    jobReg, job, delivered, raisedJob := TimeoutHandler(reg, sendFails);
    SweepsOnlyFailOnSends(reg, now, sendFails);
    assert !raisedJob;
    forall c | c in idle ensures c in job && idle[c] == job[c] {
      assert c in ExpiredChats(reg, now, SweepLimit);
    }
  }
}
