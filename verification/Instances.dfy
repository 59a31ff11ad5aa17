/** A service instance, as the load balancers see it: they compare IDs and weights, and hand on the rest. */
module Instances {

  /** `address` stands for everything but the ID and the weight. */
  datatype Instance = Instance(id: string, weight: int, address: string)
}
