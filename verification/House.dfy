/** Rent: when a house is charged for, warned about and taken away. Times are seconds. */
module Houses {
  import opened Options

  const DAY: int := 86400

  datatype RentPeriod = DAILY | WEEKLY | MONTHLY | YEARLY | NEVER

  function PeriodLength(p: RentPeriod): nat {
    match p
    case DAILY => DAY
    case WEEKLY => 7 * DAY
    case MONTHLY => 30 * DAY
    case YEARLY => 365 * DAY
    case NEVER => 0
  }

  function WarningsLimit(p: RentPeriod): nat {
    match p
    case DAILY => 1
    case WEEKLY => 3
    case MONTHLY => 7
    case YEARLY => 14
    case NEVER => 7
  }

  class Player {
    var balance: nat
    var depotMoney: nat
    const ignoresRent: bool

    constructor (balance: nat, depotMoney: nat, ignoresRent: bool)
      ensures Purse() == Wallet(balance, depotMoney) && this.ignoresRent == ignoresRent
    {
      this.balance, this.depotMoney, this.ignoresRent := balance, depotMoney, ignoresRent;
    }

    function Purse(): Wallet
      reads this
    {
      Wallet(balance, depotMoney)
    }
  }

  // ----- What happens, on values --------------------------------------------------------------------

  datatype Wallet = Wallet(balance: nat, depotMoney: nat)

  /** The state of a house. */
  datatype Terms = Terms(owner: nat, paidUntil: int, rentWarnings: nat, lastWarning: int)

  /** What does not change about it. */
  datatype Plot = Plot(guild: bool, rent: nat, period: RentPeriod)

  datatype World = World(house: Terms, wallets: map<Player, Wallet>)

  /** What payHouse finds out about the owner before it asks for the rent. */
  datatype Lookup =
    | NoTown
    | OwnerGone               // the guild has no owner, or the name is not found
    | PlayerUnavailable
    | NeedsPremium
    | LongAway                // the last login is too long ago
    | Found(player: Player)

  datatype Event =
    | Given(guid: nat, guildOf: Option<nat>, at: nat)                          // setOwnerEx
    | Auctioned(winner: nat, bid: nat, bank: bool, lookup: Lookup, at: nat)    // updateAuctions
    | Due(bank: bool, lookup: Lookup, at: nat)                                 // payHouses
    | PaidByHand(player: Player, bank: bool, town: bool, at: nat)              // payRent without a time

  /** setOwnerEx; guildOf is the guild of the new owner, if that player can be found. */
  function GivenTo(t: Terms, guild: bool, guid: nat, guildOf: Option<nat>, now: int): Terms {
    if t.owner == guid || (guild && guid != 0 && guildOf.None?) then t
    else
      var owner := if guild && guid != 0 then guildOf.value else guid;
      Terms(owner, if t.owner != 0 then 0 else t.paidUntil, if t.owner != 0 then 0 else t.rentWarnings, if owner != 0 then now else 0)
  }

  function PurseOf(w: World, player: Player): Wallet {
    if player in w.wallets then w.wallets[player] else Wallet(0, 0)
  }

  /** The purse after paying, if it holds enough in one place. */
  function Payment(purse: Wallet, amount: nat, bank: bool): Option<Wallet> {
    if bank && purse.balance >= amount then Some(purse.(balance := purse.balance - amount))
    else if purse.depotMoney >= amount then Some(purse.(depotMoney := purse.depotMoney - amount))
    else None
  }

  predicate Asked(t: Terms, plot: Plot, time: int) {
    plot.period != NEVER && t.owner != 0 && t.paidUntil <= time && plot.rent != 0
  }

  /** payRent; a time of 0 stands for the clock. */
  function RentPaid(w: World, plot: Plot, player: Player, bid: nat, time: nat, clock: nat, bank: bool, town: bool): (bool, World) {
    if !Asked(w.house, plot, time) || player.ignoresRent then (true, w)
    else if !town then (false, w)
    else
      match Payment(PurseOf(w, player), plot.rent + bid, bank)
      case None => (false, w)
      case Some(purse) =>
        var from := if time == 0 then clock else time;
        (true, World(w.house.(paidUntil := from + PeriodLength(plot.period)), w.wallets[player := purse]))
  }

  /** A day has passed without the rent: one more warning, or the end. */
  function Warned(t: Terms, plot: Plot, now: int): Terms {
    if t.rentWarnings < WarningsLimit(plot.period) then t.(rentWarnings := t.rentWarnings + 1, lastWarning := now)
    else GivenTo(t, plot.guild, 0, None, now)
  }

  /** payHouse */
  function HousePaid(w: World, plot: Plot, now: nat, bid: nat, bank: bool, lookup: Lookup): (bool, World) {
    if !Asked(w.house, plot, now) then (true, w)
    else
      match lookup
      case NoTown => (false, w)
      case PlayerUnavailable => (false, w)
      case Found(player) =>
        var (paid, after) := RentPaid(w, plot, player, bid, now, now, bank, true);
        if paid || now < w.house.lastWarning + DAY then (paid, after) else (false, w.(house := Warned(w.house, plot, now)))
      case _ => (false, w.(house := GivenTo(w.house, plot.guild, 0, None, now)))
  }

  function Step(w: World, plot: Plot, e: Event): World {
    match e
    case Given(guid, guildOf, at) => w.(house := GivenTo(w.house, plot.guild, guid, guildOf, at))
    case Auctioned(winner, bid, bank, lookup, at) => HousePaid(w.(house := w.house.(owner := winner)), plot, at, bid, bank, lookup).1
    case Due(bank, lookup, at) => HousePaid(w, plot, at, 0, bank, lookup).1
    case PaidByHand(player, bank, town, at) => RentPaid(w, plot, player, 0, 0, at, bank, town).1
  }

  function Run(w: World, plot: Plot, events: seq<Event>): World {
    if events == [] then w else Step(Run(w, plot, events[..|events| - 1]), plot, events[|events| - 1])
  }

  /** The world in which event k happens. */
  function Before(w: World, plot: Plot, events: seq<Event>, k: nat): World
    requires k <= |events|
  {
    Run(w, plot, events[..k])
  }

  lemma BeforeNext(w: World, plot: Plot, events: seq<Event>, k: nat)
    requires k < |events|
    ensures Before(w, plot, events, k + 1) == Step(Before(w, plot, events, k), plot, events[k])
  {
    hide Step;
    assert events[..k + 1][..k] == events[..k];
  }

  // ----- What events mean -----------------------------------------------------------------------------

  /** Time does not run backwards, and auctions have winners. */
  ghost predicate InOrder(events: seq<Event>) {
    && (forall k :: 0 <= k < |events| ==> events[k].at > 0 && (events[k].Auctioned? ==> events[k].winner != 0))
    && (forall j, k :: 0 <= j < k < |events| ==> events[j].at <= events[k].at)
  }

  /** A house without an owner has no warnings. */
  predicate Sane(t: Terms) {
    t.owner == 0 ==> t.rentWarnings == 0
  }

  /** The event gives the house to somebody. */
  predicate Acquires(w: World, plot: Plot, e: Event) {
    match e
    case Given(guid, guildOf, _) =>
      guid != w.house.owner && !(plot.guild && guid != 0 && guildOf.None?) && Step(w, plot, e).house.owner != 0
    case Auctioned(_, _, _, _, _) => true
    case _ => false
  }

  /** The owner who could not pay has lost the house. */
  predicate LostForRent(w: World, plot: Plot, e: Event) {
    match e
    case Auctioned(_, _, _, Found(_), _) => Step(w, plot, e).house.owner == 0
    case Due(_, Found(_), _) => w.house.owner != 0 && Step(w, plot, e).house.owner == 0
    case _ => false
  }

  function Payer(e: Event): Option<Player> {
    match e
    case Auctioned(_, _, _, Found(player), _) => Some(player)
    case Due(_, Found(player), _) => Some(player)
    case PaidByHand(player, _, _, _) => Some(player)
    case _ => None
  }

  /** The event has taken money. */
  predicate Charged(w: World, plot: Plot, e: Event) {
    match Payer(e)
    case None => false
    case Some(player) =>
      var (before, after) := (PurseOf(w, player), PurseOf(Step(w, plot, e), player));
      after.balance + after.depotMoney < before.balance + before.depotMoney
  }

  // ----- Tenure ------------------------------------------------------------------------------------------

  lemma SaneStep(w: World, plot: Plot, e: Event)
    requires Sane(w.house) && (e.Auctioned? ==> e.winner != 0)
    ensures Sane(Step(w, plot, e).house)
  {
  }

  lemma {:induction false} SaneBefore(w: World, plot: Plot, events: seq<Event>, k: nat)
    requires Sane(w.house) && InOrder(events) && k <= |events|
    ensures Sane(Before(w, plot, events, k).house)
  {
    hide Sane, Step;
    if k > 0 {
      SaneBefore(w, plot, events, k - 1);
      BeforeNext(w, plot, events, k - 1);
      SaneStep(Before(w, plot, events, k - 1), plot, events[k - 1]);
    }
  }

  /** An owner since `since`, given the house directly or not, with `carried` warnings taken over: the
      warnings lie a day apart, and the first comes a day after a direct acquisition. */
  ghost predicate Tenure(t: Terms, since: int, carried: nat, direct: bool) {
    t.owner != 0 ==>
      var own := t.rentWarnings - carried;
      && own >= 0
      && (direct || own > 0 ==> t.lastWarning >= since + (own - (if direct then 0 else 1)) * DAY)
  }

  lemma TenureBegins(w: World, plot: Plot, e: Event)
    requires Sane(w.house) && Acquires(w, plot, e) && (e.Auctioned? ==> e.winner != 0)
    ensures e.Given? ==> Tenure(Step(w, plot, e).house, e.at, 0, true)
    ensures e.Auctioned? ==> Tenure(Step(w, plot, e).house, e.at, w.house.rentWarnings, false)
  {
  }

  lemma TenureGoesOn(w: World, plot: Plot, e: Event, since: int, carried: nat, direct: bool)
    requires Tenure(w.house, since, carried, direct) && !Acquires(w, plot, e) && e.at >= since
    ensures Tenure(Step(w, plot, e).house, since, carried, direct)
  {
  }

  lemma {:induction false} TenureLasts(w: World, plot: Plot, events: seq<Event>, j: nat, k: nat, carried: nat, direct: bool)
    requires j < k <= |events| && InOrder(events)
    requires Tenure(Before(w, plot, events, j + 1).house, events[j].at, carried, direct)
    requires forall i :: j < i < k ==> !Acquires(Before(w, plot, events, i), plot, events[i])
    ensures Tenure(Before(w, plot, events, k).house, events[j].at, carried, direct)
    decreases k
  {
    hide Tenure, Acquires, Step, Before;
    if k > j + 1 {
      TenureLasts(w, plot, events, j, k - 1, carried, direct);
      BeforeNext(w, plot, events, k - 1);
      TenureGoesOn(Before(w, plot, events, k - 1), plot, events[k - 1], events[j].at, carried, direct);
    }
  }

  lemma LossTime(w: World, plot: Plot, e: Event, since: int, carried: nat, direct: bool)
    requires Tenure(w.house, since, carried, direct) && e.Due? && LostForRent(w, plot, e) && e.at >= since
    ensures e.at >= since + (WarningsLimit(plot.period) - carried + (if direct then 1 else 0)) * DAY
  {
  }

  /** Whoever loses the house for unpaid rent at event k, having got it at event j, has had it for all
      the warned days, and for one more if setOwnerEx gave it. */
  lemma TenureSafe(w: World, plot: Plot, events: seq<Event>, j: nat, k: nat)
    requires Sane(w.house) && InOrder(events) && j <= k < |events|
    requires Acquires(Before(w, plot, events, j), plot, events[j])
    requires forall i :: j < i <= k ==> !Acquires(Before(w, plot, events, i), plot, events[i])
    requires LostForRent(Before(w, plot, events, k), plot, events[k])
    ensures events[j].Given? ==> events[k].at >= events[j].at + (WarningsLimit(plot.period) + 1) * DAY
    ensures events[j].Auctioned? ==>
              var carried := Before(w, plot, events, j).house.rentWarnings;
              events[k].at >= events[j].at + (WarningsLimit(plot.period) - carried) * DAY
  {
    hide Tenure, Before, WarningsLimit;
    var x := Before(w, plot, events, j);
    SaneBefore(w, plot, events, j);
    BeforeNext(w, plot, events, j);
    TenureBegins(x, plot, events[j]);
    var (carried, direct) := (if events[j].Given? then 0 else x.house.rentWarnings, events[j].Given?);
    if j < k {
      TenureLasts(w, plot, events, j, k, carried, direct);
      LossTime(Before(w, plot, events, k), plot, events[k], events[j].at, carried, direct);
    } else {
      LostAtOnce(x, plot, events[j]);
    }
  }

  /** Only a house with all its warnings can be lost in the moment of its auction. */
  lemma LostAtOnce(w: World, plot: Plot, e: Event)
    requires LostForRent(w, plot, e) && e.Auctioned? && e.winner != 0
    ensures w.house.rentWarnings >= WarningsLimit(plot.period)
  {
  }

  // ----- Charges --------------------------------------------------------------------------------------------

  ghost predicate PaidUp(t: Terms, time: int) {
    t.owner != 0 ==> t.paidUntil >= time
  }

  lemma ChargePays(w: World, plot: Plot, e: Event)
    requires Charged(w, plot, e)
    ensures PaidUp(Step(w, plot, e).house, e.at + PeriodLength(plot.period))
    ensures !e.Auctioned? ==> w.house.owner != 0 && w.house.paidUntil <= e.at
  {
  }

  lemma PaidUpGoesOn(w: World, plot: Plot, e: Event, time: int)
    requires PaidUp(w.house, time) && !Acquires(w, plot, e) && time <= e.at + PeriodLength(plot.period)
    ensures PaidUp(Step(w, plot, e).house, time)
  {
  }

  lemma {:induction false} PaidUpLasts(w: World, plot: Plot, events: seq<Event>, j: nat, k: nat)
    requires j < k <= |events| && InOrder(events)
    requires PaidUp(Before(w, plot, events, j + 1).house, events[j].at + PeriodLength(plot.period))
    requires forall i :: j < i < k ==> !Acquires(Before(w, plot, events, i), plot, events[i])
    ensures PaidUp(Before(w, plot, events, k).house, events[j].at + PeriodLength(plot.period))
    decreases k
  {
    hide PaidUp, Acquires, Step, Before;
    if k > j + 1 {
      PaidUpLasts(w, plot, events, j, k - 1);
      BeforeNext(w, plot, events, k - 1);
      PaidUpGoesOn(Before(w, plot, events, k - 1), plot, events[k - 1], events[j].at + PeriodLength(plot.period));
    }
  }

  // ----- What a charge takes --------------------------------------------------------------------------------

  /** The time that the end of the paid time is compared with: none when somebody pays by hand. */
  function AskedAt(e: Event): nat {
    if e.PaidByHand? then 0 else e.at
  }

  function FromBank(e: Event): bool {
    match e
    case Auctioned(_, _, bank, _, _) => bank
    case Due(bank, _, _) => bank
    case PaidByHand(_, bank, _, _) => bank
    case Given(_, _, _) => false
  }

  /** A charge takes exactly the rent and the bid, from one place, from the bank if it can, and touches no
      other purse. */
  lemma ChargeTakes(w: World, plot: Plot, e: Event)
    ensures Charged(w, plot, e) ==>
              var (p, amount) := (Payer(e).value, plot.rent + if e.Auctioned? then e.bid else 0);
              var (before, after) := (PurseOf(w, p), PurseOf(Step(w, plot, e), p));
              && before.balance + before.depotMoney == after.balance + after.depotMoney + amount
              && (if FromBank(e) && before.balance >= amount then after.depotMoney == before.depotMoney
                  else after.balance == before.balance)
              && forall q :: q != p ==> PurseOf(Step(w, plot, e), q) == PurseOf(w, q)
  {
  }

  /** Without a charge no purse changes at all. */
  lemma NothingTaken(w: World, plot: Plot, e: Event)
    requires !Charged(w, plot, e)
    ensures forall q :: PurseOf(Step(w, plot, e), q) == PurseOf(w, q)
  {
  }

  /** Somebody is charged exactly when a house with an owner and a rent is due, the payer has to pay, and the
      bank or the depot holds it all. */
  lemma ChargedWhen(w: World, plot: Plot, e: Event)
    requires Payer(e).Some?
    ensures var (p, amount) := (Payer(e).value, plot.rent + if e.Auctioned? then e.bid else 0);
            var owner := if e.Auctioned? then e.winner else w.house.owner;
            Charged(w, plot, e) <==>
            && plot.period != NEVER && owner != 0 && w.house.paidUntil <= AskedAt(e) && plot.rent != 0
            && !p.ignoresRent && (e.PaidByHand? ==> e.town)
            && ((FromBank(e) && PurseOf(w, p).balance >= amount) || PurseOf(w, p).depotMoney >= amount)
  {
  }

  /** When the rent is due, an owner who is gone, lacks the premium or is long away loses the house at once;
      without a town, or while the player cannot be loaded, nothing happens. */
  lemma DueUnpaid(w: World, plot: Plot, bank: bool, lookup: Lookup, at: nat)
    requires !lookup.Found?
    ensures var after := Step(w, plot, Due(bank, lookup, at));
            if plot.period != NEVER && w.house.owner != 0 && w.house.paidUntil <= at && plot.rent != 0 &&
               (lookup == OwnerGone || lookup == NeedsPremium || lookup == LongAway)
            then after == World(Terms(0, 0, 0, 0), w.wallets)
            else after == w
  {
  }

  /** setOwnerEx: a house goes to the player, a guild hall to the player's guild; an unknown player gets no
      guild hall. The clock of the warnings starts with the new owner, and a previous owner leaves nothing behind. */
  lemma GivenMeans(w: World, plot: Plot, guid: nat, guildOf: Option<nat>, at: nat)
    ensures var t := Step(w, plot, Given(guid, guildOf, at)).house;
            if guid == w.house.owner || (plot.guild && guid != 0 && guildOf == None) then t == w.house
            else
              && t.owner == (if plot.guild && guid != 0 then guildOf.value else guid)
              && t.lastWarning == (if t.owner != 0 then at else 0)
              && (w.house.owner != 0 ==> t.paidUntil == 0 && t.rentWarnings == 0)
              && (w.house.owner == 0 ==> t.paidUntil == w.house.paidUntil && t.rentWarnings == w.house.rentWarnings)
  {
  }

  /** Two charges of one owner are at least a rent period apart. */
  lemma ChargesSpaced(w: World, plot: Plot, events: seq<Event>, j: nat, k: nat)
    requires InOrder(events) && j < k < |events|
    requires Charged(Before(w, plot, events, j), plot, events[j]) && Charged(Before(w, plot, events, k), plot, events[k])
    requires forall i :: j < i <= k ==> !Acquires(Before(w, plot, events, i), plot, events[i])
    ensures events[k].at >= events[j].at + PeriodLength(plot.period)
    ensures events[k].at - events[j].at >= match plot.period {
              case DAILY => 86400
              case WEEKLY => 604800
              case MONTHLY => 2592000
              case YEARLY => 31536000
              case NEVER => 0
            }
  {
    assert PeriodLength(DAILY) == 86400 && PeriodLength(WEEKLY) == 604800 && PeriodLength(MONTHLY) == 2592000;
    assert PeriodLength(YEARLY) == 31536000 && PeriodLength(NEVER) == 0;
    hide Charged, Before, PeriodLength, Step;
    BeforeNext(w, plot, events, j);
    ChargePays(Before(w, plot, events, j), plot, events[j]);
    PaidUpLasts(w, plot, events, j, k);
    ChargePays(Before(w, plot, events, k), plot, events[k]);
  }

  // ----- The bounds are met ----------------------------------------------------------------------------------

  /** Asked for the rent once a day, the first time a day after `now`. */
  function DailyDues(pauper: Player, bank: bool, now: nat, n: nat): seq<Event> {
    seq(n, i requires 0 <= i < n => Due(bank, Found(pauper), now + (i + 1) * DAY))
  }

  /** The player has to pay and cannot. */
  ghost predicate Pauper(w: World, plot: Plot, player: Player, amount: nat, bank: bool) {
    !player.ignoresRent && Payment(PurseOf(w, player), amount, bank).None?
  }

  lemma WarnedOnce(w: World, plot: Plot, pauper: Player, bank: bool, now: nat)
    requires plot.period != NEVER && plot.rent != 0 && Pauper(w, plot, pauper, plot.rent, bank)
    requires w.house.owner != 0 && w.house.paidUntil <= now && w.house.lastWarning + DAY <= now
    ensures var after := Step(w, plot, Due(bank, Found(pauper), now));
            if w.house.rentWarnings < WarningsLimit(plot.period)
            then after == w.(house := w.house.(rentWarnings := w.house.rentWarnings + 1, lastWarning := now))
            else after.house.owner == 0
  {
  }

  /** n days without rent bring n warnings, as long as the limit allows them. */
  lemma {:induction false} WarnedDaily(w: World, plot: Plot, pauper: Player, bank: bool, now: nat, n: nat)
    requires plot.period != NEVER && plot.rent != 0 && Pauper(w, plot, pauper, plot.rent, bank)
    requires w.house.owner != 0 && w.house.paidUntil <= now && w.house.lastWarning == now
    requires w.house.rentWarnings + n <= WarningsLimit(plot.period)
    ensures Run(w, plot, DailyDues(pauper, bank, now, n)) ==
            w.(house := w.house.(rentWarnings := w.house.rentWarnings + n, lastWarning := now + n * DAY))
  {
    hide Step, WarningsLimit;
    if n > 0 {
      var dues := DailyDues(pauper, bank, now, n);
      WarnedDaily(w, plot, pauper, bank, now, n - 1);
      assert dues[..n - 1] == DailyDues(pauper, bank, now, n - 1);
      WarnedOnce(Run(w, plot, dues[..n - 1]), plot, pauper, bank, now + n * DAY);
    }
  }

  lemma {:induction false} RunThen(w: World, plot: Plot, first: Event, rest: seq<Event>)
    ensures Run(w, plot, [first] + rest) == Run(Step(w, plot, first), plot, rest)
    decreases |rest|
  {
    hide Step;
    var all := [first] + rest;
    if rest == [] {
      assert all[..0] == [];
    } else {
      RunThen(w, plot, first, rest[..|rest| - 1]);
      assert all[..|all| - 1] == [first] + rest[..|rest| - 1];
    }
  }

  /** Asked daily, a pauper keeps a house given by setOwnerEx for exactly limit + 1 days. */
  lemma GivenHouseLost(w: World, plot: Plot, guid: nat, guildOf: Option<nat>, pauper: Player, bank: bool, now: nat)
    requires Sane(w.house) && plot.period != NEVER && plot.rent != 0 && Pauper(w, plot, pauper, plot.rent, bank)
    requires Acquires(w, plot, Given(guid, guildOf, now)) && (w.house.owner == 0 ==> w.house.paidUntil <= now)
    ensures var n := match plot.period { case DAILY => 2 case WEEKLY => 4 case MONTHLY => 8 case YEARLY => 15 case NEVER => 8 };
            var events := [Given(guid, guildOf, now)] + DailyDues(pauper, bank, now, n);
            && events[n].at == now + n * DAY
            && Before(w, plot, events, n).house.owner != 0
            && Run(w, plot, events).house.owner == 0
  {
    var first := Given(guid, guildOf, now);
    var given := Step(w, plot, first);
    assert given == w.(house := Terms(given.house.owner, given.house.paidUntil, 0, now)) && given.house.paidUntil <= now;
    hide Step, Run, DailyDues;
    LostAfter(w, plot, first, pauper, bank, now, WarningsLimit(plot.period));
  }

  /** A house in its owner's hands since the first event, and limit - warnings daily dues from its loss. */
  lemma LostAfter(w: World, plot: Plot, first: Event, pauper: Player, bank: bool, now: nat, n: nat)
    requires plot.period != NEVER && plot.rent != 0
    requires var v := Step(w, plot, first);
             && Pauper(v, plot, pauper, plot.rent, bank) && v.house.owner != 0
             && v.house.paidUntil <= now && v.house.lastWarning == now
             && v.house.rentWarnings + n == WarningsLimit(plot.period)
    ensures var events := [first] + DailyDues(pauper, bank, now, n + 1);
            && events[n + 1].at == now + (n + 1) * DAY
            && Before(w, plot, events, n + 1).house.owner == Step(w, plot, first).house.owner
            && Run(w, plot, events).house.owner == 0
  {
    hide Step, WarningsLimit, Pauper;
    var (v, dues) := (Step(w, plot, first), DailyDues(pauper, bank, now, n + 1));
    var events := [first] + dues;
    WarnedDaily(v, plot, pauper, bank, now, n);
    assert dues[..n] == DailyDues(pauper, bank, now, n);
    RunThen(w, plot, first, dues[..n]);
    assert events[..n + 1] == [first] + dues[..n];
    SamePauper(v, Run(v, plot, dues[..n]), plot, pauper, bank);
    WarnedOnce(Run(v, plot, dues[..n]), plot, pauper, bank, now + (n + 1) * DAY);
    assert events[..|events| - 1] == events[..n + 1];
  }

  lemma SamePauper(v: World, w: World, plot: Plot, pauper: Player, bank: bool)
    requires Pauper(v, plot, pauper, plot.rent, bank) && w.wallets == v.wallets
    ensures Pauper(w, plot, pauper, plot.rent, bank)
  {
  }

  /** A house won in an auction is lost a day earlier: its owner is warned in the same moment, because
      the last warning of a house without an owner lies at time zero. */
  lemma AuctionedHouseLostEarly(w: World, plot: Plot, winner: nat, bid: nat, pauper: Player, bank: bool, now: nat)
    requires Sane(w.house) && plot.period != NEVER && plot.rent != 0 && winner != 0
    requires Pauper(w, plot, pauper, plot.rent, bank)
    requires w.house.owner == 0 && w.house.paidUntil <= now && w.house.lastWarning + DAY <= now
    ensures var n := match plot.period { case DAILY => 1 case WEEKLY => 3 case MONTHLY => 7 case YEARLY => 14 case NEVER => 7 };
            var events := [Auctioned(winner, bid, bank, Found(pauper), now)] + DailyDues(pauper, bank, now, n);
            && events[n].at == now + n * DAY
            && Before(w, plot, events, n).house.owner == winner
            && Run(w, plot, events).house.owner == 0
  {
    var first := Auctioned(winner, bid, bank, Found(pauper), now);
    assert Step(w, plot, first) == w.(house := Terms(winner, w.house.paidUntil, 1, now));
    hide Step, Run, DailyDues;
    LostAfter(w, plot, first, pauper, bank, now, WarningsLimit(plot.period) - 1);
  }

  // ----- The objects -------------------------------------------------------------------------------------------

  ghost function Purses(players: set<Player>): map<Player, Wallet>
    reads players
  {
    map player | player in players :: player.Purse()
  }

  class House {
    var owner: nat
    const guild: bool
    const rent: nat
    var paidUntil: int
    var rentWarnings: nat
    var lastWarning: int

    constructor (guild: bool, rent: nat)
      ensures State() == Terms(0, 0, 0, 0) && this.guild == guild && this.rent == rent
    {
      this.guild, this.rent := guild, rent;
      owner, paidUntil, rentWarnings, lastWarning := 0, 0, 0, 0;
    }

    function State(): Terms
      reads this
    {
      Terms(owner, paidUntil, rentWarnings, lastWarning)
    }

    function PlotFor(p: RentPeriod): Plot {
      Plot(guild, rent, p)
    }

    ghost function In(players: set<Player>): World
      reads this, players
    {
      World(State(), Purses(players))
    }

    method SetOwnerEx(guid: nat, guildOf: Option<nat>, now: int) returns (ok: bool)
      modifies this
      ensures State() == GivenTo(old(State()), guild, guid, guildOf, now)
      ensures ok == (guid == old(owner) || !(guild && guid != 0 && guildOf.None?))
    {
      if owner == guid { return true; }
      var newOwner := guid;
      if guild && guid != 0 {
        if guildOf.None? { return false; }
        newOwner := guildOf.value;
      }
      if owner != 0 { rentWarnings, paidUntil := 0, 0; }
      owner := newOwner;
      lastWarning := if newOwner != 0 then now else 0;
      ok := true;
    }

    /** The end of an auction gives the house away without touching the warnings. */
    method SetOwner(guid: nat)
      modifies `owner
      ensures State() == old(State()).(owner := guid)
    {
      owner := guid;
    }
  }

  lemma OnePurse(players: set<Player>, player: Player)
    requires player in players
    ensures player in Purses(players) && Purses(players)[player] == player.Purse()
  {
  }

  /** Takes the amount from the bank or from the depot, whichever holds it all. */
  method TakeMoney(player: Player, amount: nat, bank: bool) returns (paid: bool)
    modifies player
    ensures paid == Payment(old(player.Purse()), amount, bank).Some?
    ensures player.Purse() == if paid then Payment(old(player.Purse()), amount, bank).value else old(player.Purse())
  {
    paid := false;
    if bank && player.balance >= amount {
      player.balance := player.balance - amount;
      paid := true;
    } else if player.depotMoney >= amount {
      player.depotMoney := player.depotMoney - amount;
      paid := true;
    }
  }

  /** payRent; a time of 0 stands for the clock. */
  method PayRent(player: Player, house: House, bid: nat, time: nat, clock: nat, p: RentPeriod, bank: bool, town: bool,
                 ghost players: set<Player>)
    returns (paid: bool)
    requires player in players
    modifies player, house`paidUntil
    ensures (paid, house.In(players)) == RentPaid(old(house.In(players)), house.PlotFor(p), player, bid, time, clock, bank, town)
  {
    hide Payment, PeriodLength;
    OnePurse(players, player);
    if p == NEVER || house.owner == 0 || house.paidUntil > time || house.rent == 0 || player.ignoresRent { return true; }
    if !town { return false; }
    paid := TakeMoney(player, house.rent + bid, bank);
    assert Purses(players) == old(Purses(players))[player := player.Purse()];
    assert !paid ==> Purses(players) == old(Purses(players));
    if !paid { return false; }
    var from := if time == 0 then clock else time;
    house.paidUntil := from + PeriodLength(p);
  }

  /** A day has passed without the rent. */
  method Warn(house: House, now: nat, p: RentPeriod)
    modifies house
    ensures house.State() == Warned(old(house.State()), house.PlotFor(p), now)
  {
    if house.rentWarnings < WarningsLimit(p) {
      house.rentWarnings := house.rentWarnings + 1;
      house.lastWarning := now;
    } else {
      var ok := house.SetOwnerEx(0, None, now);
    }
  }

  method PayHouse(house: House, now: nat, bid: nat, p: RentPeriod, bank: bool, lookup: Lookup, ghost players: set<Player>)
    returns (paid: bool)
    requires lookup.Found? ==> lookup.player in players
    modifies house, players
    ensures (paid, house.In(players)) == HousePaid(old(house.In(players)), house.PlotFor(p), now, bid, bank, lookup)
  {
    hide RentPaid, Warned, GivenTo;
    if p == NEVER || house.owner == 0 || house.paidUntil > now || house.rent == 0 { return true; }
    match lookup {
      case NoTown => return false;
      case PlayerUnavailable => return false;
      case Found(player) =>
        var lastWarning := house.lastWarning;
        UnpaidChangesNothing(house.In(players), house.PlotFor(p), player, bid, now, bank);
        paid := PayRent(player, house, bid, now, now, p, bank, true, players);
        if !paid && now >= lastWarning + DAY { Warn(house, now, p); }
      case _ =>
        var ok := house.SetOwnerEx(0, None, now);
        return false;
    }
  }

  lemma UnpaidChangesNothing(w: World, plot: Plot, player: Player, bid: nat, now: nat, bank: bool)
    ensures var (paid, after) := RentPaid(w, plot, player, bid, now, now, bank, true); !paid ==> after == w
  {
  }

  method Happen(house: House, e: Event, p: RentPeriod, ghost players: set<Player>)
    requires Payer(e).Some? ==> Payer(e).value in players
    modifies house, players
    ensures house.In(players) == Step(old(house.In(players)), house.PlotFor(p), e)
  {
    hide RentPaid, HousePaid, GivenTo;
    match e {
      case Given(guid, guildOf, at) =>
        var ok := house.SetOwnerEx(guid, guildOf, at);
      case Auctioned(winner, bid, bank, lookup, at) =>
        house.SetOwner(winner);
        var paid := PayHouse(house, at, bid, p, bank, lookup, players);
      case Due(bank, lookup, at) =>
        var paid := PayHouse(house, at, 0, p, bank, lookup, players);
      case PaidByHand(player, bank, town, at) =>
        var paid := PayRent(player, house, 0, 0, at, p, bank, town, players);
    }
  }

  /** Any life of the house is the run of its events, so all that is said of runs holds of it. */
  method Life(house: House, events: seq<Event>, p: RentPeriod, ghost players: set<Player>)
    requires forall e :: e in events && Payer(e).Some? ==> Payer(e).value in players
    modifies house, players
    ensures house.In(players) == Run(old(house.In(players)), house.PlotFor(p), events)
  {
    hide Step;
    for k := 0 to |events|
      invariant house.In(players) == Run(old(house.In(players)), house.PlotFor(p), events[..k])
    {
      assert events[..k + 1][..k] == events[..k] && events[k] in events;
      Happen(house, events[k], p, players);
    }
    assert events[..|events|] == events;
  }
}
