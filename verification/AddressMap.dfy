/** Classification of contract addresses (crates/common/src/address_map.rs). */
module AddressMap {
  type Address = nat

  datatype ContractType = System | Precompile | Popular | Unknown

  datatype KnownAddress = KnownAddress(address: Address, name: string, contractType: ContractType)

  /** The table of known contracts; every property is proved for every table. */
  type KnownAddresses = map<Address, KnownAddress>

  predicate IsPrecompile(known: KnownAddresses, address: Address) {
    address in known && known[address].contractType.Precompile?
  }

  predicate IsSystem(known: KnownAddresses, address: Address) {
    address in known && known[address].contractType.System?
  }
}
