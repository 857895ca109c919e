/** The resource type names that deployment rows and snapshots carry. */
module ResourceTypes {
  const AWS_VPC := "aws_vpc"
  const AWS_SUBNET := "aws_subnet"
  const AWS_INSTANCE := "aws_instance"
  const AWS_INTERNET_GATEWAY := "aws_internet_gateway"
  const AWS_ROUTE_TABLE := "aws_route_table"
  const AWS_ROUTE_TABLE_ASSOCIATION := "aws_route_table_association"
  const AWS_SECURITY_GROUP := "aws_security_group"

  const NEUTRON_NETWORK := "neutron_network"
  const NEUTRON_SUBNET := "neutron_subnet"
  const NOVA_SERVER := "nova_server"

  const PROVIDER_NETWORK := "provider_network"
  const PROVIDER_SUBNET := "provider_subnet"
  const PROVIDER_INSTANCE := "provider_instance"

  const INSTANCE_RESOURCE_TYPES := {AWS_INSTANCE, NOVA_SERVER, PROVIDER_INSTANCE}
  const SUBNET_RESOURCE_TYPES := {AWS_SUBNET, NEUTRON_SUBNET, PROVIDER_SUBNET}
  const NETWORK_RESOURCE_TYPES := {NEUTRON_NETWORK, PROVIDER_NETWORK}

  /** Teardown order: instances, subnets, attachments, anything else, networks. */
  function Tier(rtype: string): nat {
    if rtype in INSTANCE_RESOURCE_TYPES then 0
    else if rtype in SUBNET_RESOURCE_TYPES then 1
    else if rtype in {AWS_SECURITY_GROUP, AWS_INTERNET_GATEWAY, AWS_ROUTE_TABLE, AWS_ROUTE_TABLE_ASSOCIATION} then 2
    else if rtype == AWS_VPC || rtype in NETWORK_RESOURCE_TYPES then 4
    else 3
  }
}
