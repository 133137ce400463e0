/** internal/alert/factory.go: building the service from its configuration. */
module AlertFactory {
  import opened Prelude
  import opened PubSub

  /** The type of a manager: one of the three constants, or some other text. */
  datatype AlertManagerType = PrometheusType | GitOpsType | SlackType | Unsupported(name: string)

  /** The entries of a manager's configuration; one that is missing reads as the empty string. */
  datatype Settings = Settings(prometheusAddress: string, repoURL: string, repoDir: string, webhookURL: string)

  type Config = map<AlertManagerType, Settings>

  /**
    NewAlertManager. The Prometheus client rejects an address it cannot parse (`unparsable` has those); any
    other type of manager is unsupported.
  */
  function NewAlertManager(managerType: AlertManagerType, config: Settings, unparsable: set<string>): Result<Manager> {
    match managerType
    case PrometheusType =>
      if config.prometheusAddress in unparsable then Raised else Ok(Prometheus(config.prometheusAddress))
    case GitOpsType => Ok(GitOps(config.repoDir))
    case SlackType => Ok(Slack(config.webhookURL))
    case Unsupported(_) => Raised
  }

  /** The adapter of the type, with the entry of its settings that is its own. */
  predicate IsManagerOf(manager: Manager, managerType: AlertManagerType, config: Settings) {
    match manager
    case Prometheus(address) => managerType.PrometheusType? && address == config.prometheusAddress
    case GitOps(repoDir) => managerType.GitOpsType? && repoDir == config.repoDir
    case Slack(webhookURL) => managerType.SlackType? && webhookURL == config.webhookURL
  }

  /** It cannot be built: an unsupported type, or a Prometheus address that cannot be parsed. */
  predicate Unbuildable(managerType: AlertManagerType, config: Settings, unparsable: set<string>) {
    managerType.Unsupported? || (managerType.PrometheusType? && config.prometheusAddress in unparsable)
  }

  lemma WhatIsBuilt(managerType: AlertManagerType, config: Settings, unparsable: set<string>)
    ensures var manager := NewAlertManager(managerType, config, unparsable);
            && (manager.Raised? <==> Unbuildable(managerType, config, unparsable))
            && (manager.Ok? ==> IsManagerOf(manager.value, managerType, config))
  {
  }

  /** `managers` has one manager for each of the types `types`, built from its settings, in the order `order`. */
  ghost predicate Built(managers: seq<Manager>, order: seq<AlertManagerType>, types: set<AlertManagerType>,
                        config: Config, unparsable: set<string>) {
    && |managers| == |order| && multiset(order) == multiset(types)
    && forall i :: 0 <= i < |order| ==>
         order[i] in config && NewAlertManager(order[i], config[order[i]], unparsable) == Ok(managers[i])
  }

  lemma BuiltOneMore(managers: seq<Manager>, order: seq<AlertManagerType>, types: set<AlertManagerType>,
                     config: Config, unparsable: set<string>, t: AlertManagerType)
    requires Built(managers, order, types, config, unparsable)
    requires t in config && t !in types && NewAlertManager(t, config[t], unparsable).Ok?
    ensures Built(managers + [NewAlertManager(t, config[t], unparsable).value], order + [t], types + {t},
                  config, unparsable)
  {
  }

  /** The managers are subscribed to the alerts topic, in order, and nobody to any other. */
  ghost predicate Serves(subscribers: Subscribers, managers: seq<Manager>) {
    SubscribersOf(subscribers, ALERTS) == managers && subscribers.Keys <= {ALERTS}
  }

  lemma ServesOneMore(subscribers: Subscribers, managers: seq<Manager>, manager: Manager)
    requires Serves(subscribers, managers)
    ensures Serves(subscribers[ALERTS := managers + [manager]], managers + [manager])
  {
  }

  /** One type fewer to go. */
  lemma OneMoreDone(all: set<AlertManagerType>, todo: set<AlertManagerType>, t: AlertManagerType)
    requires todo <= all && t in todo
    ensures t !in all - todo && all - (todo - {t}) == all - todo + {t}
  {
  }

  /**
    CreateAlertService. It fails exactly when some configured manager cannot be built; else every configured
    manager is subscribed to the alerts topic exactly once, in the order Go's map iteration took, and to
    nothing else.
  */
  method CreateAlertService(config: Config, unparsable: set<string>)
    returns (service: Result<PubSub>, order: seq<AlertManagerType>)
    ensures service.Raised? <==> exists t :: t in config && Unbuildable(t, config[t], unparsable)
    ensures service.Ok? ==>
              && fresh(service.value)
              && service.value.subscribers.Keys <= {"alerts"}
              && |SubscribersOf(service.value.subscribers, "alerts")| == |order|
              && multiset(order) == multiset(config.Keys)
              && forall i :: 0 <= i < |order| ==>
                   order[i] in config
                   && IsManagerOf(SubscribersOf(service.value.subscribers, "alerts")[i], order[i], config[order[i]])
    ensures service.Ok? ==>
              Built(SubscribersOf(service.value.subscribers, ALERTS), order, config.Keys, config, unparsable)
  {
    var pubsub := new PubSub();
    order := [];
    var todo := config.Keys;
    ghost var managers: seq<Manager> := [];
    while todo != {}
      invariant todo <= config.Keys && fresh(pubsub)
      invariant Built(managers, order, config.Keys - todo, config, unparsable)
      invariant Serves(pubsub.subscribers, managers)
      invariant forall t :: t in config && t !in todo ==> !Unbuildable(t, config[t], unparsable)
      decreases todo
    {
      var managerType :| managerType in todo;
      var manager := NewAlertManager(managerType, config[managerType], unparsable);
      WhatIsBuilt(managerType, config[managerType], unparsable);
      if manager.Raised? {
        return Raised, order;
      }
      OneMoreDone(config.Keys, todo, managerType);
      BuiltOneMore(managers, order, config.Keys - todo, config, unparsable, managerType);
      ServesOneMore(pubsub.subscribers, managers, manager.value);
      pubsub.Subscribe(ALERTS, manager.value);
      managers := managers + [manager.value];
      order := order + [managerType];
      todo := todo - {managerType};
    }
    assert config.Keys - {} == config.Keys;
    forall i | 0 <= i < |order| ensures IsManagerOf(managers[i], order[i], config[order[i]]) {
      WhatIsBuilt(order[i], config[order[i]], unparsable);
    }
    service := Ok(pubsub);
  }
}
