/**
 The Application Gateway resources that several parts of the controller pass
 around, reduced to the fields the routing logic reads or writes. `Id` is the type
 of resource names and references.
 */
module Resources {

  datatype Option<+T> = None | Some(value: T)

  datatype RuleType = Basic | PathBasedRouting

  /** One entry of a URL path map: the paths and where they lead. */
  datatype PathRule<Id> = PathRule(
    name: Id,
    paths: Option<seq<string>>,
    pool: Option<Id>,
    settings: Option<Id>,
    redirect: Option<Id>,
    firewall: Option<string>
  )

  /** The properties block of a URL path map. */
  datatype PathMapProps<Id> = PathMapProps(
    pool: Option<Id>,
    settings: Option<Id>,
    redirect: Option<Id>,
    rewrite: Option<Id>,
    pathRules: Option<seq<PathRule<Id>>>
  )

  /** A request routing rule: either basic, or leading to a path map. */
  datatype RoutingRule<Id> = RoutingRule(
    name: Id,
    listener: Option<Id>,
    ruleType: RuleType,
    pathMap: Option<Id>,
    pool: Option<Id>,
    settings: Option<Id>,
    redirect: Option<Id>,
    rewrite: Option<Id>
  )
}
