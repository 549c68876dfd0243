/**
 * IccCardProxy.getState: the single card state the phone reports, worked
 * out from the state of the UICC card, the state of its active
 * application, and the application's personalisation (network lock)
 * substate.
 */
module IccCardState {
  import opened Nullable

  /** IccCard.State. */
  datatype State =
    | UNKNOWN | ABSENT | PIN_REQUIRED | PUK_REQUIRED | NETWORK_LOCKED | READY | CARD_IO_ERROR
    | SIM_NETWORK_SUBSET_LOCKED | SIM_CORPORATE_LOCKED | SIM_SERVICE_PROVIDER_LOCKED | SIM_SIM_LOCKED
    | RUIM_NETWORK1_LOCKED | RUIM_NETWORK2_LOCKED | RUIM_HRPD_LOCKED | RUIM_CORPORATE_LOCKED
    | RUIM_SERVICE_PROVIDER_LOCKED | RUIM_RUIM_LOCKED | NOT_READY

  datatype CardState = CARDSTATE_ABSENT | CARDSTATE_PRESENT | CARDSTATE_ERROR

  datatype AppState =
    | APPSTATE_UNKNOWN | APPSTATE_DETECTED | APPSTATE_PIN | APPSTATE_PUK
    | APPSTATE_SUBSCRIPTION_PERSO | APPSTATE_READY | APPSTATE_ILLEGAL

  datatype PersoSubState =
    | PERSOSUBSTATE_UNKNOWN | PERSOSUBSTATE_IN_PROGRESS | PERSOSUBSTATE_READY
    | PERSOSUBSTATE_SIM_NETWORK | PERSOSUBSTATE_SIM_NETWORK_SUBSET | PERSOSUBSTATE_SIM_CORPORATE
    | PERSOSUBSTATE_SIM_SERVICE_PROVIDER | PERSOSUBSTATE_SIM_SIM
    | PERSOSUBSTATE_SIM_NETWORK_PUK | PERSOSUBSTATE_SIM_NETWORK_SUBSET_PUK | PERSOSUBSTATE_SIM_CORPORATE_PUK
    | PERSOSUBSTATE_SIM_SERVICE_PROVIDER_PUK | PERSOSUBSTATE_SIM_SIM_PUK
    | PERSOSUBSTATE_RUIM_NETWORK1 | PERSOSUBSTATE_RUIM_NETWORK2 | PERSOSUBSTATE_RUIM_HRPD
    | PERSOSUBSTATE_RUIM_CORPORATE | PERSOSUBSTATE_RUIM_SERVICE_PROVIDER | PERSOSUBSTATE_RUIM_RUIM
    | PERSOSUBSTATE_RUIM_NETWORK1_PUK | PERSOSUBSTATE_RUIM_NETWORK2_PUK | PERSOSUBSTATE_RUIM_HRPD_PUK
    | PERSOSUBSTATE_RUIM_CORPORATE_PUK | PERSOSUBSTATE_RUIM_SERVICE_PROVIDER_PUK | PERSOSUBSTATE_RUIM_RUIM_PUK

  /** The active application as getState sees it. */
  datatype Application = Application(appState: AppState, persoState: PersoSubState)

  /** The personalisation lock a substate reports, if any. */
  function LockedState(p: PersoSubState): (r: Option<State>)
  {
    match p
    case PERSOSUBSTATE_UNKNOWN => None
    case PERSOSUBSTATE_IN_PROGRESS => None
    case PERSOSUBSTATE_READY => None
    case PERSOSUBSTATE_SIM_NETWORK => Some(NETWORK_LOCKED)
    case PERSOSUBSTATE_SIM_NETWORK_PUK => Some(NETWORK_LOCKED)
    case PERSOSUBSTATE_SIM_NETWORK_SUBSET => Some(SIM_NETWORK_SUBSET_LOCKED)
    case PERSOSUBSTATE_SIM_NETWORK_SUBSET_PUK => Some(SIM_NETWORK_SUBSET_LOCKED)
    case PERSOSUBSTATE_SIM_CORPORATE => Some(SIM_CORPORATE_LOCKED)
    case PERSOSUBSTATE_SIM_CORPORATE_PUK => Some(SIM_CORPORATE_LOCKED)
    case PERSOSUBSTATE_SIM_SERVICE_PROVIDER => Some(SIM_SERVICE_PROVIDER_LOCKED)
    case PERSOSUBSTATE_SIM_SERVICE_PROVIDER_PUK => Some(SIM_SERVICE_PROVIDER_LOCKED)
    case PERSOSUBSTATE_SIM_SIM => Some(SIM_SIM_LOCKED)
    case PERSOSUBSTATE_SIM_SIM_PUK => Some(SIM_SIM_LOCKED)
    case PERSOSUBSTATE_RUIM_NETWORK1 => Some(RUIM_NETWORK1_LOCKED)
    case PERSOSUBSTATE_RUIM_NETWORK1_PUK => Some(RUIM_NETWORK1_LOCKED)
    case PERSOSUBSTATE_RUIM_NETWORK2 => Some(RUIM_NETWORK2_LOCKED)
    case PERSOSUBSTATE_RUIM_NETWORK2_PUK => Some(RUIM_NETWORK2_LOCKED)
    case PERSOSUBSTATE_RUIM_HRPD => Some(RUIM_HRPD_LOCKED)
    case PERSOSUBSTATE_RUIM_HRPD_PUK => Some(RUIM_HRPD_LOCKED)
    case PERSOSUBSTATE_RUIM_CORPORATE => Some(RUIM_CORPORATE_LOCKED)
    case PERSOSUBSTATE_RUIM_CORPORATE_PUK => Some(RUIM_CORPORATE_LOCKED)
    case PERSOSUBSTATE_RUIM_SERVICE_PROVIDER => Some(RUIM_SERVICE_PROVIDER_LOCKED)
    case PERSOSUBSTATE_RUIM_SERVICE_PROVIDER_PUK => Some(RUIM_SERVICE_PROVIDER_LOCKED)
    case PERSOSUBSTATE_RUIM_RUIM => Some(RUIM_RUIM_LOCKED)
    case PERSOSUBSTATE_RUIM_RUIM_PUK => Some(RUIM_RUIM_LOCKED)
  }

  /** The states that report a personalisation lock. */
  predicate IsPersoLock(s: State)
  {
    s in {NETWORK_LOCKED, SIM_NETWORK_SUBSET_LOCKED, SIM_CORPORATE_LOCKED, SIM_SERVICE_PROVIDER_LOCKED,
          SIM_SIM_LOCKED, RUIM_NETWORK1_LOCKED, RUIM_NETWORK2_LOCKED, RUIM_HRPD_LOCKED,
          RUIM_CORPORATE_LOCKED, RUIM_SERVICE_PROVIDER_LOCKED, RUIM_RUIM_LOCKED}
  }

  /** The _PUK variant of a lock substate: the same lock, blocked until the
      unblocking key is entered. */
  function PukVariant(p: PersoSubState): Option<PersoSubState>
  {
    match p
    case PERSOSUBSTATE_SIM_NETWORK => Some(PERSOSUBSTATE_SIM_NETWORK_PUK)
    case PERSOSUBSTATE_SIM_NETWORK_SUBSET => Some(PERSOSUBSTATE_SIM_NETWORK_SUBSET_PUK)
    case PERSOSUBSTATE_SIM_CORPORATE => Some(PERSOSUBSTATE_SIM_CORPORATE_PUK)
    case PERSOSUBSTATE_SIM_SERVICE_PROVIDER => Some(PERSOSUBSTATE_SIM_SERVICE_PROVIDER_PUK)
    case PERSOSUBSTATE_SIM_SIM => Some(PERSOSUBSTATE_SIM_SIM_PUK)
    case PERSOSUBSTATE_RUIM_NETWORK1 => Some(PERSOSUBSTATE_RUIM_NETWORK1_PUK)
    case PERSOSUBSTATE_RUIM_NETWORK2 => Some(PERSOSUBSTATE_RUIM_NETWORK2_PUK)
    case PERSOSUBSTATE_RUIM_HRPD => Some(PERSOSUBSTATE_RUIM_HRPD_PUK)
    case PERSOSUBSTATE_RUIM_CORPORATE => Some(PERSOSUBSTATE_RUIM_CORPORATE_PUK)
    case PERSOSUBSTATE_RUIM_SERVICE_PROVIDER => Some(PERSOSUBSTATE_RUIM_SERVICE_PROVIDER_PUK)
    case PERSOSUBSTATE_RUIM_RUIM => Some(PERSOSUBSTATE_RUIM_RUIM_PUK)
    case _ => None
  }

  /** getState. Without both a card and an application the card counts as
      absent. */
  function GetState(card: Option<CardState>, application: Option<Application>): (r: State)
    ensures r == ABSENT <==> card.None? || application.None? || card.value == CARDSTATE_ABSENT
    ensures r == CARD_IO_ERROR <==> card == Some(CARDSTATE_ERROR) && application.Some?
    ensures r == READY <==> card == Some(CARDSTATE_PRESENT) && application.Some? && application.value.appState == APPSTATE_READY
    ensures r == PIN_REQUIRED <==> card == Some(CARDSTATE_PRESENT) && application.Some? && application.value.appState == APPSTATE_PIN
    ensures r == PUK_REQUIRED <==> card == Some(CARDSTATE_PRESENT) && application.Some? && application.value.appState == APPSTATE_PUK
    ensures r != NOT_READY
  {
    var present := card.Some? && application.Some?;
    var cardState := if present then card.value else CARDSTATE_ABSENT;
    var appState := if present then application.value.appState else APPSTATE_UNKNOWN;
    var persoState := if present then application.value.persoState else PERSOSUBSTATE_UNKNOWN;
    match cardState
    case CARDSTATE_ABSENT => ABSENT
    case CARDSTATE_ERROR => CARD_IO_ERROR
    case CARDSTATE_PRESENT =>
      match appState
      case APPSTATE_ILLEGAL => UNKNOWN
      case APPSTATE_UNKNOWN => UNKNOWN
      case APPSTATE_READY => READY
      case APPSTATE_PIN => PIN_REQUIRED
      case APPSTATE_PUK => PUK_REQUIRED
      case APPSTATE_SUBSCRIPTION_PERSO =>
        (match LockedState(persoState)
         case Some(locked) => locked
         case None => UNKNOWN)
      case APPSTATE_DETECTED => UNKNOWN
  }

  /** A lock and its _PUK variant report the same state, and both are
      personalisation locks. */
  lemma PukVariantSameState(p: PersoSubState, card: Option<CardState>, appState: AppState)
    requires PukVariant(p).Some?
    ensures LockedState(p).Some? && LockedState(p) == LockedState(PukVariant(p).value)
    ensures GetState(card, Some(Application(appState, p))) == GetState(card, Some(Application(appState, PukVariant(p).value)))
  {
  }

  /** A personalisation lock is reported exactly for a present card whose
      application waits for personalisation with a lock substate; every
      other personalisation substate reads as UNKNOWN. */
  lemma PersoLockIff(card: Option<CardState>, application: Option<Application>)
    ensures IsPersoLock(GetState(card, application)) <==>
              card == Some(CARDSTATE_PRESENT) && application.Some?
              && application.value.appState == APPSTATE_SUBSCRIPTION_PERSO
              && LockedState(application.value.persoState).Some?
    ensures card == Some(CARDSTATE_PRESENT) && application.Some?
            && application.value.appState == APPSTATE_SUBSCRIPTION_PERSO ==>
              GetState(card, application) ==
                if LockedState(application.value.persoState).Some? then LockedState(application.value.persoState).value
                else UNKNOWN
  {
    if card == Some(CARDSTATE_PRESENT) && application.Some? && application.value.appState == APPSTATE_SUBSCRIPTION_PERSO {
      LockedStateIsLock(application.value.persoState);
    }
  }

  lemma LockedStateIsLock(p: PersoSubState)
    ensures LockedState(p).Some? ==> IsPersoLock(LockedState(p).value)
  {
  }

  /** Two lock substates that are neither the same lock nor each other's
      _PUK variant report different states. */
  lemma LockedStatesDistinct(p: PersoSubState, q: PersoSubState)
    requires LockedState(p).Some? && LockedState(q).Some?
    requires p != q && PukVariant(p) != Some(q) && PukVariant(q) != Some(p)
    ensures LockedState(p) != LockedState(q)
  {
  }
}
